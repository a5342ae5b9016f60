/** String operations shared by the Rust crate and the TypeScript scraper: one-character
    splitting (Rust `str::split(char)`, JavaScript `String.prototype.split`), joining,
    Rust's `str::trim`, ASCII lower-casing, first-occurrence replacement and decimal rendering. */
module Text {
  import opened Wrappers

  /** The pieces of `s` between occurrences of `sep`.  Empty pieces are kept and there is
      always at least one piece, so `Split("", sep) == [""]`. */
  function Split(s: string, sep: char): (r: seq<string>)
    ensures |r| >= 1
  {
    if |s| == 0 then [""]
    else
      var rest := Split(s[1..], sep);
      if s[0] == sep then [""] + rest
      else [[s[0]] + rest[0]] + rest[1..]
  }

  /** JavaScript's `Array.prototype.join(sep)`; `join()` with no argument uses "," */
  function Join(pieces: seq<string>, sep: string): string
  {
    if |pieces| == 0 then ""
    else if |pieces| == 1 then pieces[0]
    else pieces[0] + sep + Join(pieces[1..], sep)
  }

  /** The last element, as Rust's `Iterator::last` and JavaScript's `Array.prototype.pop` give it */
  function Last<T>(xs: seq<T>): T
    requires |xs| > 0
  {
    xs[|xs| - 1]
  }

  lemma JoinConsFirst(c: char, pieces: seq<string>, sep: string)
    requires |pieces| >= 1
    ensures Join([[c] + pieces[0]] + pieces[1..], sep) == [c] + Join(pieces, sep)
  {
    var p := [[c] + pieces[0]] + pieces[1..];
    assert p[1..] == pieces[1..];
  }

  /** No piece holds the separator. */
  lemma {:induction false} SplitPiecesLackSeparator(s: string, sep: char)
    ensures forall i :: 0 <= i < |Split(s, sep)| ==> sep !in Split(s, sep)[i]
  {
    if |s| > 0 {
      SplitPiecesLackSeparator(s[1..], sep);
      var rest := Split(s[1..], sep);
      if s[0] != sep {
        assert forall i :: 1 <= i < |rest| ==> ([[s[0]] + rest[0]] + rest[1..])[i] == rest[i];
      } else {
        assert forall i :: 1 <= i < |rest| + 1 ==> ([""] + rest)[i] == rest[i - 1];
      }
    }
  }

  /** Splitting and joining back with the same separator gives the original string. */
  lemma {:induction false} JoinSplit(s: string, sep: char)
    ensures Join(Split(s, sep), [sep]) == s
  {
    if |s| > 0 {
      JoinSplit(s[1..], sep);
      var rest := Split(s[1..], sep);
      if s[0] == sep {
        assert ([""] + rest)[1..] == rest;
        assert s == [sep] + s[1..];
      } else {
        JoinConsFirst(s[0], rest, [sep]);
        assert s == [s[0]] + s[1..];
      }
    }
  }

  /** A string without the separator is one piece. */
  lemma {:induction false} SplitWithoutSeparator(s: string, sep: char)
    requires sep !in s
    ensures Split(s, sep) == [s]
  {
    if |s| > 0 {
      SplitWithoutSeparator(s[1..], sep);
      assert s == [s[0]] + s[1..];
    }
  }

  /** A separator between `a` and `b` splits the pieces of `a` from those of `b`. */
  lemma {:induction false} SplitAround(a: string, b: string, sep: char)
    ensures Split(a + [sep] + b, sep) == Split(a, sep) + Split(b, sep)
  {
    if |a| == 0 {
      SplitCons(sep, b, sep);
      assert a + [sep] + b == [sep] + b;
    } else {
      var t := a[1..] + [sep] + b;
      assert a + [sep] + b == [a[0]] + t;
      assert a == [a[0]] + a[1..];
      SplitCons(a[0], t, sep);
      SplitCons(a[0], a[1..], sep);
      SplitAround(a[1..], b, sep);
      SplitAroundStep(a[0], Split(a[1..], sep), Split(b, sep), sep);
    }
  }

  /** One step of `Split`: the first character either ends the first piece or begins it. */
  lemma SplitCons(c: char, t: string, sep: char)
    ensures Split([c] + t, sep)
         == if c == sep then [""] + Split(t, sep) else [[c] + Split(t, sep)[0]] + Split(t, sep)[1..]
  {
    assert ([c] + t)[1..] == t;
  }

  lemma SplitAroundStep(c: char, ra: seq<string>, rb: seq<string>, sep: char)
    requires |ra| >= 1
    ensures (if c == sep then [""] + (ra + rb) else [[c] + (ra + rb)[0]] + (ra + rb)[1..])
         == (if c == sep then [""] + ra else [[c] + ra[0]] + ra[1..]) + rb
  {
    if c != sep {
      assert (ra + rb)[1..] == ra[1..] + rb;
    }
  }

  /** Three separator-free pieces joined by the separator split back into those pieces. */
  lemma SplitThree(x: string, y: string, z: string, sep: char)
    requires sep !in x && sep !in y && sep !in z
    ensures Split(x + [sep] + y + [sep] + z, sep) == [x, y, z]
  {
    var yz := y + [sep] + z;
    assert x + [sep] + y + [sep] + z == x + [sep] + yz;
    SplitAround(y, z, sep);
    SplitWithoutSeparator(y, sep);
    SplitWithoutSeparator(z, sep);
    SplitAround(x, yz, sep);
    SplitWithoutSeparator(x, sep);
  }

  /** Three separator-free pieces at the end of a string are its last three pieces. */
  lemma SplitLastThree(a: string, x: string, y: string, z: string, sep: char)
    requires sep !in x && sep !in y && sep !in z
    ensures var parts := Split(a + [sep] + x + [sep] + y + [sep] + z, sep);
      |parts| >= 3 && parts[|parts| - 3..] == [x, y, z]
  {
    var xyz := x + [sep] + y + [sep] + z;
    assert a + [sep] + x + [sep] + y + [sep] + z == a + [sep] + xyz;
    SplitThree(x, y, z, sep);
    SplitAround(a, xyz, sep);
    var parts := Split(a, sep) + [x, y, z];
    assert parts[|parts| - 3..] == [x, y, z];
  }

  /** The piece after the last separator: `split(sep).pop()` in JavaScript,
      `split(sep).last()` in Rust */
  function LastPiece(s: string, sep: char): (r: string)
    ensures sep !in r
  {
    SplitPiecesLackSeparator(s, sep);
    Last(Split(s, sep))
  }

  /** The last piece is what follows the last separator. */
  lemma LastPieceAfter(a: string, sep: char, b: string)
    requires sep !in b
    ensures LastPiece(a + [sep] + b, sep) == b
  {
    SplitAround(a, b, sep);
    SplitWithoutSeparator(b, sep);
  }

  /** The first piece is the text before the first separator, or all of `s` when it has none. */
  lemma {:induction false} SplitFirstPiece(s: string, sep: char)
    ensures var p := Split(s, sep)[0];
      |p| <= |s| && s[..|p|] == p && (|p| < |s| ==> s[|p|] == sep) && sep !in p
  {
    SplitPiecesLackSeparator(s, sep);
    if |s| > 0 {
      SplitFirstPiece(s[1..], sep);
    }
  }

  /** The language whose notion of white space a trim follows */
  datatype Runtime = Rust | JavaScript

  /** White space as `char::is_whitespace` (the Unicode White_Space property) sees it in Rust,
      and as `String.prototype.trim` and the regular expression class `\s` see it in JavaScript
      (WhiteSpace and LineTerminator of ECMAScript): the two differ in U+0085 and U+FEFF only */
  predicate IsWhitespace(rt: Runtime, c: char)
  {
    || ('\t' <= c <= '\r') || c == ' ' || c == '\U{00A0}' || c == '\U{1680}'
    || ('\U{2000}' <= c <= '\U{200A}') || c == '\U{2028}' || c == '\U{2029}'
    || c == '\U{202F}' || c == '\U{205F}' || c == '\U{3000}'
    || (rt == Rust && c == '\U{0085}')
    || (rt == JavaScript && c == '\U{FEFF}')
  }

  /** Rust's `str::trim_start`, JavaScript's `trimStart` */
  function TrimStart(rt: Runtime, s: string): string
  {
    if |s| > 0 && IsWhitespace(rt, s[0]) then TrimStart(rt, s[1..]) else s
  }

  /** Rust's `str::trim_end`, JavaScript's `trimEnd` */
  function TrimEnd(rt: Runtime, s: string): string
  {
    if |s| > 0 && IsWhitespace(rt, s[|s| - 1]) then TrimEnd(rt, s[..|s| - 1]) else s
  }

  /** Rust's `str::trim`, JavaScript's `trim` */
  function Trim(rt: Runtime, s: string): string
  {
    TrimEnd(rt, TrimStart(rt, s))
  }

  /** `trim_start` drops the leading white space and nothing else. */
  lemma {:induction false} TrimStartDropsLeadingSpace(rt: Runtime, s: string)
    ensures var r := TrimStart(rt, s);
      && |r| <= |s| && r == s[|s| - |r|..]
      && (|r| > 0 ==> !IsWhitespace(rt, r[0]))
      && forall i :: 0 <= i < |s| - |r| ==> IsWhitespace(rt, s[i])
  {
    if |s| > 0 && IsWhitespace(rt, s[0]) {
      TrimStartDropsLeadingSpace(rt, s[1..]);
    }
  }

  /** `trim_end` drops the trailing white space and nothing else. */
  lemma {:induction false} TrimEndDropsTrailingSpace(rt: Runtime, s: string)
    ensures var r := TrimEnd(rt, s);
      && |r| <= |s| && r == s[..|r|]
      && (|r| > 0 ==> !IsWhitespace(rt, r[|r| - 1]))
      && forall i :: |r| <= i < |s| ==> IsWhitespace(rt, s[i])
  {
    if |s| > 0 && IsWhitespace(rt, s[|s| - 1]) {
      TrimEndDropsTrailingSpace(rt, s[..|s| - 1]);
    }
  }

  /** Sequence concatenation is associative. */
  lemma ConcatAssoc<T>(x: seq<T>, y: seq<T>, z: seq<T>)
    ensures x + y + z == x + (y + z)
  {
  }

  /** Leading white space before text that starts with something else is dropped, exactly. */
  lemma {:induction false} TrimStartSpaceRun(rt: Runtime, ws: string, b: string)
    requires forall i :: 0 <= i < |ws| ==> IsWhitespace(rt, ws[i])
    requires |b| > 0 ==> !IsWhitespace(rt, b[0])
    ensures TrimStart(rt, ws + b) == b
  {
    if |ws| == 0 {
      assert ws + b == b;
    } else {
      assert (ws + b)[1..] == ws[1..] + b;
      TrimStartSpaceRun(rt, ws[1..], b);
    }
  }

  /** `trim_start` of a text that ends in a non-space character stops inside it. */
  lemma {:induction false} TrimStartAppend(rt: Runtime, a: string, t: string)
    requires |a| > 0 && !IsWhitespace(rt, a[|a| - 1])
    ensures TrimStart(rt, a + t) == TrimStart(rt, a) + t
    ensures 0 < |TrimStart(rt, a)| <= |a| && Last(TrimStart(rt, a)) == a[|a| - 1]
    ensures IsWhitespace(rt, a[0]) ==> |TrimStart(rt, a)| < |a|
  {
    if IsWhitespace(rt, a[0]) {
      assert (a + t)[1..] == a[1..] + t;
      TrimStartAppend(rt, a[1..], t);
    }
  }

  /** The trim is a slice of `s` with no white space at either end, empty exactly when `s` is
      all white space. */
  lemma TrimShape(rt: Runtime, s: string)
    ensures var r := Trim(rt, s);
      && (exists i, j :: 0 <= i <= j <= |s| && r == s[i..j])
      && (|r| > 0 ==> !IsWhitespace(rt, r[0]) && !IsWhitespace(rt, r[|r| - 1]))
      && (r == [] <==> forall i :: 0 <= i < |s| ==> IsWhitespace(rt, s[i]))
  {
    var t := TrimStart(rt, s);
    TrimStartDropsLeadingSpace(rt, s);
    TrimEndDropsTrailingSpace(rt, t);
    var r := TrimEnd(rt, t);
    var i := |s| - |t|;
    assert r == s[i..i + |r|];
    if |r| > 0 {
      assert r[0] == t[0];
    }
    if r == [] {
      assert t == [];
    }
  }

  /** A string without white space at either end is its own trim. */
  lemma TrimOfTrimmed(rt: Runtime, s: string)
    requires |s| > 0 ==> !IsWhitespace(rt, s[0]) && !IsWhitespace(rt, s[|s| - 1])
    ensures Trim(rt, s) == s
  {
  }

  /** `String.prototype.toLowerCase` on the ASCII letters */
  function LowerAscii(c: char): char
  {
    if 'A' <= c <= 'Z' then (c as int - 'A' as int + 'a' as int) as char else c
  }

  function ToLowerAscii(s: string): (r: string)
    ensures |r| == |s|
    ensures forall i :: 0 <= i < |s| ==> r[i] == LowerAscii(s[i])
  {
    if |s| == 0 then "" else [LowerAscii(s[0])] + ToLowerAscii(s[1..])
  }

  /** `pat` occurs in `s` starting at position `j` */
  predicate OccursAt(s: string, pat: string, j: int)
  {
    0 <= j && j + |pat| <= |s| && s[j..j + |pat|] == pat
  }

  lemma OccursAtShift(s: string, pat: string, j: nat)
    requires |s| > 0
    ensures OccursAt(s, pat, j + 1) <==> OccursAt(s[1..], pat, j)
  {
    if j + 1 + |pat| <= |s| {
      assert s[j + 1..j + 1 + |pat|] == s[1..][j..j + |pat|];
    }
  }

  /** The position of the first occurrence of `pat` in `s` */
  function IndexOf(s: string, pat: string): (r: Option<nat>)
    ensures r.Some? ==> OccursAt(s, pat, r.value)
    ensures r.Some? ==> forall j :: 0 <= j < r.value ==> !OccursAt(s, pat, j)
    ensures r.None? ==> forall j :: !OccursAt(s, pat, j)
    decreases |s|
  {
    if |s| < |pat| then None
    else if s[..|pat|] == pat then Some(0)
    else
      var rest := IndexOf(s[1..], pat);
      assert forall j: nat :: OccursAt(s, pat, j + 1) <==> OccursAt(s[1..], pat, j) by {
        forall j: nat ensures OccursAt(s, pat, j + 1) <==> OccursAt(s[1..], pat, j) {
          OccursAtShift(s, pat, j);
        }
      }
      assert !OccursAt(s, pat, 0);
      match rest
      case None =>
        assert forall j :: !OccursAt(s, pat, j) by {
          forall j ensures !OccursAt(s, pat, j) {
            if j > 0 { assert !OccursAt(s[1..], pat, j - 1); }
          }
        }
        None
      case Some(k) =>
        assert forall j :: 0 <= j < k + 1 ==> !OccursAt(s, pat, j) by {
          forall j | 0 < j < k + 1 ensures !OccursAt(s, pat, j) {
            assert !OccursAt(s[1..], pat, j - 1);
          }
        }
        Some(k + 1)
  }

  /** `String.prototype.replace(pat, rep)` with a string pattern: only the first occurrence
      is replaced, and a string without `pat` is returned unchanged. */
  function ReplaceFirst(s: string, pat: string, rep: string): (r: string)
  {
    match IndexOf(s, pat)
    case None => s
    case Some(i) => s[..i] + rep + s[i + |pat|..]
  }

  /** Replacing at the first occurrence: when the pattern's first character is nowhere in `a`,
      the occurrence right after `a` is the first one. */
  lemma ReplaceFirstAfter(a: string, pat: string, rep: string, b: string)
    requires |pat| > 0 && pat[0] !in a
    ensures ReplaceFirst(a + pat + b, pat, rep) == a + rep + b
  {
    var s := a + pat + b;
    assert OccursAt(s, pat, |a|) by {
      assert s[|a|..|a| + |pat|] == pat;
    }
    forall j | 0 <= j < |a|
      ensures !OccursAt(s, pat, j)
    {
      assert s[j] == a[j] != pat[0];
    }
    assert IndexOf(s, pat) == Some(|a|);
    assert s[..|a|] == a && s[|a| + |pat|..] == b;
  }

  /** Position `i` holds the first `c` of `s` */
  predicate FirstOccurrence(s: string, c: char, i: int)
  {
    0 <= i < |s| && s[i] == c && forall j :: 0 <= j < i ==> s[j] != c
  }

  /** Replacing a one-character pattern changes its first occurrence and nothing else. */
  lemma ReplaceFirstChar(s: string, c: char, d: char)
    ensures var r := ReplaceFirst(s, [c], [d]);
      |r| == |s| && forall i :: 0 <= i < |s| ==> r[i] == if FirstOccurrence(s, c, i) then d else s[i]
  {
    forall j | 0 <= j < |s|
      ensures OccursAt(s, [c], j) <==> s[j] == c
    {
      assert s[j..j + 1] == [s[j]];
    }
    match IndexOf(s, [c])
    case None =>
    case Some(n) =>
      ReplaceCharAt(s, n, d);
  }

  lemma ReplaceCharAt(s: string, n: nat, d: char)
    requires n < |s| && FirstOccurrence(s, s[n], n)
    ensures var r := s[..n] + [d] + s[n + 1..];
      |r| == |s| && forall i :: 0 <= i < |s| ==> r[i] == if FirstOccurrence(s, s[n], i) then d else s[i]
  {
  }

  predicate IsAsciiDigit(c: char)
  {
    '0' <= c <= '9'
  }

  function DigitChar(d: nat): (c: char)
    requires d < 10
    ensures IsAsciiDigit(c)
  {
    ('0' as int + d) as char
  }

  /** The decimal numeral of `n`, without sign or leading zeros */
  function DecimalString(n: nat): (r: string)
    ensures |r| > 0 && IsAsciiDigit(r[0])
    ensures forall i :: 0 <= i < |r| ==> IsAsciiDigit(r[i])
  {
    if n < 10 then [DigitChar(n)] else DecimalString(n / 10) + [DigitChar(n % 10)]
  }
}
