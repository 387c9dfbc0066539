/** String helpers with the semantics of the JavaScript string methods the
    dashboard calls: `toLowerCase`/`toUpperCase` (ASCII letters only),
    `includes`, `startsWith`, `trim`, `split` on one character, `join`. */
module Text {

  /** The code points `String.prototype.trim` removes: the ECMAScript
      WhiteSpace (TAB, VT, FF, SP, NBSP, ZWNBSP and the Zs category) and
      LineTerminator (LF, CR, LS, PS) productions. */
  predicate IsWhite(c: char) {
    || c == '\t' || c == '\n' || c == '\U{B}' || c == '\U{C}' || c == '\r'
    || c == ' ' || c == '\U{A0}' || c == '\U{1680}'
    || ('\U{2000}' <= c <= '\U{200A}')
    || c == '\U{2028}' || c == '\U{2029}' || c == '\U{202F}' || c == '\U{205F}'
    || c == '\U{3000}' || c == '\U{FEFF}'
  }

  predicate AllWhite(s: string) {
    forall i :: 0 <= i < |s| ==> IsWhite(s[i])
  }

  /** No white space at either end: what `trim` leaves unchanged. */
  predicate IsTrimmed(s: string) {
    |s| == 0 || (!IsWhite(s[0]) && !IsWhite(s[|s| - 1]))
  }

  // ---------------------------------------------------------------------
  // Case mapping (ASCII letters only)
  // ---------------------------------------------------------------------

  predicate IsUpperAscii(c: char) {
    'A' <= c <= 'Z'
  }

  predicate IsLowerAscii(c: char) {
    'a' <= c <= 'z'
  }

  function LowerChar(c: char): char {
    if IsUpperAscii(c) then (c as int + 32) as char else c
  }

  function UpperChar(c: char): char {
    if IsLowerAscii(c) then (c as int - 32) as char else c
  }

  /** `s.toLowerCase()`, restricted to ASCII letters. */
  function Lower(s: string): (r: string)
    ensures |r| == |s|
    ensures forall i :: 0 <= i < |s| ==> r[i] == LowerChar(s[i])
  {
    if |s| == 0 then "" else [LowerChar(s[0])] + Lower(s[1..])
  }

  /** `s.toUpperCase()`, restricted to ASCII letters. */
  function Upper(s: string): (r: string)
    ensures |r| == |s|
    ensures forall i :: 0 <= i < |s| ==> r[i] == UpperChar(s[i])
  {
    if |s| == 0 then "" else [UpperChar(s[0])] + Upper(s[1..])
  }

  /** Lower-casing twice is lower-casing once. */
  lemma LowerIdempotent(s: string)
    ensures Lower(Lower(s)) == Lower(s)
  {
    assert forall i :: 0 <= i < |s| ==> Lower(Lower(s))[i] == Lower(s)[i];
  }

  /** Lower-casing leaves no ASCII capital behind. */
  lemma LowerHasNoCapitals(s: string)
    ensures forall i :: 0 <= i < |s| ==> !IsUpperAscii(Lower(s)[i])
  {
  }

  // ---------------------------------------------------------------------
  // includes / startsWith
  // ---------------------------------------------------------------------

  /** `needle` occurs in `hay` starting at index `i`. */
  predicate OccursAt(hay: string, needle: string, i: int) {
    0 <= i && i + |needle| <= |hay| && hay[i..i + |needle|] == needle
  }

  lemma OccursShiftAt(hay: string, needle: string, i: int)
    requires |hay| > 0
    ensures OccursAt(hay[1..], needle, i) <==> i >= 0 && OccursAt(hay, needle, i + 1)
  {
    if 0 <= i && i + |needle| <= |hay| - 1 {
      assert hay[1..][i..i + |needle|] == hay[i + 1..i + 1 + |needle|];
    }
  }

  /** Past a failed first position, `needle` occurs in `hay` iff it occurs in its tail. */
  lemma OccursInTail(hay: string, needle: string)
    requires |hay| > 0 && !OccursAt(hay, needle, 0)
    ensures (exists i :: OccursAt(hay, needle, i)) <==> (exists j :: OccursAt(hay[1..], needle, j))
  {
    if i :| OccursAt(hay, needle, i) {
      OccursShiftAt(hay, needle, i - 1);
    }
    if j :| OccursAt(hay[1..], needle, j) {
      OccursShiftAt(hay, needle, j);
    }
  }

  /** `hay.includes(needle)`: tries every start position from the left. */
  function Includes(hay: string, needle: string): (r: bool)
    ensures r <==> exists i :: OccursAt(hay, needle, i)
    decreases |hay|
  {
    if |needle| > |hay| then
      false
    else if hay[..|needle|] == needle then
      assert OccursAt(hay, needle, 0);
      true
    else
      assert !OccursAt(hay, needle, 0);
      OccursInTail(hay, needle);
      Includes(hay[1..], needle)
  }

  /** The empty string occurs in every string. */
  lemma IncludesEmpty(hay: string)
    ensures Includes(hay, "")
  {
    assert OccursAt(hay, "", 0);
  }

  /** `hay.toLowerCase().includes(needle.toLowerCase())`. */
  predicate IncludesIgnoreCase(hay: string, needle: string) {
    Includes(Lower(hay), Lower(needle))
  }

  /** An empty search term matches every text. */
  lemma IncludesIgnoreCaseEmpty(hay: string)
    ensures IncludesIgnoreCase(hay, "")
  {
    IncludesEmpty(Lower(hay));
  }

  /** `s.startsWith(prefix)`. */
  predicate StartsWith(s: string, prefix: string) {
    |prefix| <= |s| && s[..|prefix|] == prefix
  }

  // ---------------------------------------------------------------------
  // trim
  // ---------------------------------------------------------------------

  /** Drops the white space at the front of `s`. */
  function TrimStart(s: string): (r: string)
    ensures |r| <= |s| && r == s[|s| - |r|..]
    ensures AllWhite(s[..|s| - |r|])
    ensures |r| == 0 || !IsWhite(r[0])
  {
    if |s| > 0 && IsWhite(s[0]) then
      var r := TrimStart(s[1..]);
      assert s[..|s| - |r|] == [s[0]] + s[1..][..|s| - 1 - |r|];
      r
    else
      s
  }

  /** Drops the white space at the end of `s`. */
  function TrimEnd(s: string): (r: string)
    ensures |r| <= |s| && r == s[..|r|]
    ensures AllWhite(s[|r|..])
    ensures |r| == 0 || !IsWhite(r[|r| - 1])
  {
    if |s| > 0 && IsWhite(s[|s| - 1]) then
      var r := TrimEnd(s[..|s| - 1]);
      assert s[|r|..] == s[..|s| - 1][|r|..] + [s[|s| - 1]];
      r
    else
      s
  }

  /** `s.trim()`. */
  function Trim(s: string): (r: string)
    ensures IsTrimmed(r)
    ensures |r| <= |s|
    ensures |r| == 0 <==> AllWhite(s)
  {
    var t := TrimStart(s);
    var r := TrimEnd(t);
    assert |r| > 0 ==> r[0] == t[0];
    assert |t| > 0 ==> t[0] == s[|s| - |t|];
    assert |r| == 0 ==> AllWhite(s) by {
      if |r| == 0 {
        assert s == s[..|s| - |t|] + t;
        assert t == t[0..] && AllWhite(t[|r|..]);
      }
    }
    r
  }

  lemma {:induction false} TrimStartWhitePrefix(w: string, s: string)
    requires AllWhite(w)
    requires |s| == 0 || !IsWhite(s[0])
    ensures TrimStart(w + s) == s
    decreases |w|
  {
    var x := w + s;
    if |w| > 0 {
      assert x[0] == w[0] && IsWhite(x[0]);
      assert x[1..] == w[1..] + s;
      TrimStartWhitePrefix(w[1..], s);
      assert TrimStart(x) == TrimStart(x[1..]);
    } else {
      assert x == s;
    }
  }

  lemma {:induction false} TrimEndWhiteSuffix(s: string, w: string)
    requires AllWhite(w)
    requires |s| == 0 || !IsWhite(s[|s| - 1])
    ensures TrimEnd(s + w) == s
    decreases |w|
  {
    var x := s + w;
    if |w| > 0 {
      assert x[|x| - 1] == w[|w| - 1] && IsWhite(x[|x| - 1]);
      assert x[..|x| - 1] == s + w[..|w| - 1];
      TrimEndWhiteSuffix(s, w[..|w| - 1]);
      assert TrimEnd(x) == TrimEnd(x[..|x| - 1]);
    } else {
      assert x == s;
    }
  }

  /** `trim` removes exactly the white space around a trimmed core: the
      decomposition `white + core + white` is what `trim` undoes. */
  lemma {:induction false} TrimAround(w1: string, core: string, w2: string)
    requires AllWhite(w1) && AllWhite(w2) && IsTrimmed(core)
    ensures Trim(w1 + core + w2) == core
  {
    if |core| > 0 {
      assert w1 + core + w2 == w1 + (core + w2);
      TrimStartWhitePrefix(w1, core + w2);
      TrimEndWhiteSuffix(core, w2);
    } else {
      assert w1 + core + w2 == (w1 + w2) + "";
      assert AllWhite(w1 + w2) by {
        forall i | 0 <= i < |w1 + w2| ensures IsWhite((w1 + w2)[i]) {
          if i < |w1| { assert (w1 + w2)[i] == w1[i]; }
          else { assert (w1 + w2)[i] == w2[i - |w1|]; }
        }
      }
      TrimStartWhitePrefix(w1 + w2, "");
      assert TrimEnd("") == "";
    }
  }

  /** A trimmed string is its own trim. */
  lemma TrimTrimmed(s: string)
    requires IsTrimmed(s)
    ensures Trim(s) == s
  {
    TrimAround("", s, "");
    assert "" + s + "" == s;
  }

  /** `trim` of one leading space before a trimmed string. */
  lemma TrimSpaceBefore(s: string)
    requires IsTrimmed(s)
    ensures Trim(" " + s) == s
  {
    TrimAround(" ", s, "");
    assert " " + s + "" == " " + s;
  }

  // ---------------------------------------------------------------------
  // split / join
  // ---------------------------------------------------------------------

  /** Number of occurrences of `c` in `s`. */
  function Count(s: string, c: char): nat {
    if |s| == 0 then 0 else (if s[0] == c then 1 else 0) + Count(s[1..], c)
  }

  /** `parts.join(sep)`. */
  function Join(parts: seq<string>, sep: string): string {
    if |parts| == 0 then ""
    else if |parts| == 1 then parts[0]
    else parts[0] + sep + Join(parts[1..], sep)
  }

  /** `s.split(sep)` for a one-character separator: the pieces between the
      separators, empty pieces included, at least one piece. */
  function Split(s: string, sep: char): (r: seq<string>)
    ensures |r| == Count(s, sep) + 1
    ensures forall i :: 0 <= i < |r| ==> sep !in r[i]
    ensures Join(r, [sep]) == s
    decreases |s|
  {
    if |s| == 0 then
      [""]
    else
      var rest := Split(s[1..], sep);
      if s[0] == sep then
        assert ([""] + rest)[1..] == rest;
        [""] + rest
      else
        var r := [[s[0]] + rest[0]] + rest[1..];
        assert r[1..] == rest[1..];
        assert forall i :: 1 <= i < |r| ==> r[i] == rest[i];
        assert |rest| > 1 ==> Join(rest, [sep]) == rest[0] + [sep] + Join(rest[1..], [sep]);
        r
  }

  lemma SplitNoSeparator(s: string, sep: char)
    requires sep !in s
    ensures Split(s, sep) == [s]
    decreases |s|
  {
    if |s| > 0 {
      SplitNoSeparator(s[1..], sep);
    }
  }

  lemma SplitAfterPiece(a: string, sep: char, b: string)
    requires sep !in a
    ensures Split(a + [sep] + b, sep) == [a] + Split(b, sep)
    decreases |a|
  {
    if |a| == 0 {
      assert a + [sep] + b == [sep] + b;
      assert ([sep] + b)[1..] == b;
    } else {
      assert (a + [sep] + b)[1..] == a[1..] + [sep] + b;
      SplitAfterPiece(a[1..], sep, b);
      assert [a[0]] + a[1..] == a;
    }
  }

  /** Splitting a join gives back the pieces, when no piece holds the
      separator (the round trip of `split`/`join`). */
  lemma {:induction false} SplitJoin(parts: seq<string>, sep: char)
    requires |parts| > 0
    requires forall i :: 0 <= i < |parts| ==> sep !in parts[i]
    ensures Split(Join(parts, [sep]), sep) == parts
    decreases |parts|
  {
    if |parts| == 1 {
      SplitNoSeparator(parts[0], sep);
    } else {
      SplitJoin(parts[1..], sep);
      SplitAfterPiece(parts[0], sep, Join(parts[1..], [sep]));
      assert [parts[0]] + parts[1..] == parts;
    }
  }

  /** Each piece with a leading space. */
  function Spaced(parts: seq<string>): (r: seq<string>)
    ensures |r| == |parts|
    ensures forall i :: 0 <= i < |parts| ==> r[i] == " " + parts[i]
  {
    if |parts| == 0 then [] else [" " + parts[0]] + Spaced(parts[1..])
  }

  lemma JoinSpacedHead(head: string, rest: seq<string>, sep: string)
    ensures Join([" " + head] + rest, sep) == " " + Join([head] + rest, sep)
  {
    if |rest| > 0 {
      assert ([" " + head] + rest)[1..] == rest;
      assert ([head] + rest)[1..] == rest;
    }
  }

  /** Joining with ", " is joining with "," after prefixing every piece but
      the first with a space. */
  lemma {:induction false} JoinCommaSpace(parts: seq<string>)
    requires |parts| > 0
    ensures Join(parts, ", ") == Join([parts[0]] + Spaced(parts[1..]), ",")
    decreases |parts|
  {
    if |parts| > 1 {
      var tail := parts[1..];
      JoinCommaSpace(tail);
      assert Spaced(tail) == [" " + tail[0]] + Spaced(tail[1..]);
      JoinSpacedHead(tail[0], Spaced(tail[1..]), ",");
      assert ([parts[0]] + Spaced(tail))[1..] == Spaced(tail);
    }
  }

  /** Splitting `parts.join(", ")` on ',' gives the pieces, every one after
      the first carrying the space of the separator. */
  lemma SplitCommaSpaceJoin(parts: seq<string>)
    requires |parts| > 0
    requires forall i :: 0 <= i < |parts| ==> ',' !in parts[i]
    ensures Split(Join(parts, ", "), ',') == [parts[0]] + Spaced(parts[1..])
  {
    JoinCommaSpace(parts);
    var q := [parts[0]] + Spaced(parts[1..]);
    forall i | 0 <= i < |q| ensures ',' !in q[i] {
      if i > 0 {
        assert q[i] == " " + parts[i];
      }
    }
    SplitJoin(q, ',');
  }

  /** `parts.map(p => p.trim())`. */
  function TrimAll(parts: seq<string>): (r: seq<string>)
    ensures |r| == |parts|
    ensures forall i :: 0 <= i < |parts| ==> r[i] == Trim(parts[i])
  {
    if |parts| == 0 then [] else [Trim(parts[0])] + TrimAll(parts[1..])
  }

  /** Trimming the pieces of `Join(parts, ", ")` split at the commas gives back the parts. */
  lemma TrimPieces(parts: seq<string>)
    requires |parts| > 0
    requires forall j :: 0 <= j < |parts| ==> IsTrimmed(parts[j])
    ensures TrimAll([parts[0]] + Spaced(parts[1..])) == parts
  {
    var r := TrimAll([parts[0]] + Spaced(parts[1..]));
    forall i | 0 <= i < |parts| ensures r[i] == parts[i] {
      TrimPiece(parts, i);
    }
  }

  /** Each piece of the joined list trims back to its part. */
  lemma TrimPiece(parts: seq<string>, i: int)
    requires 0 <= i < |parts|
    requires forall j :: 0 <= j < |parts| ==> IsTrimmed(parts[j])
    ensures Trim(([parts[0]] + Spaced(parts[1..]))[i]) == parts[i]
  {
    if i == 0 {
      TrimTrimmed(parts[0]);
    } else {
      assert ([parts[0]] + Spaced(parts[1..]))[i] == " " + parts[i];
      TrimSpaceBefore(parts[i]);
    }
  }

  /** Every character of the trimmed string is in the string. */
  lemma TrimKeepsChars(s: string)
    ensures forall c :: c in Trim(s) ==> c in s
  {
    var a := TrimStart(s);
    assert Trim(s) == TrimEnd(a);
    forall c | c in Trim(s) ensures c in s {
      var k :| 0 <= k < |Trim(s)| && Trim(s)[k] == c;
      assert Trim(s) == a[..|Trim(s)|];
      assert a == s[|s| - |a|..];
      assert s[|s| - |a| + k] == c;
    }
  }
}
