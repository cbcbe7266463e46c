/**
 * The JavaScript string operations the blog code relies on, on `seq<char>`:
 * `trim`, `split(/\s+/)`, `toLowerCase`, `includes`, `endsWith`, `slice`,
 * `replace` with a string pattern and with the anchored pattern `/\.md$/`,
 * and `Math.ceil(n / 200)`.
 */
module Text {
  import opened Seqs

  /**
   * The code points JavaScript's `\s` class matches and `String.prototype.trim`
   * strips: the WhiteSpace and LineTerminator characters of ECMAScript.
   */
  predicate IsSpace(c: char)
  {
    || c == '\t' || c == '\n' || c == '\U{000B}' || c == '\U{000C}' || c == '\r' || c == ' '
    || c == '\U{00A0}' || c == '\U{1680}' || ('\U{2000}' <= c <= '\U{200A}')
    || c == '\U{2028}' || c == '\U{2029}' || c == '\U{202F}' || c == '\U{205F}'
    || c == '\U{3000}' || c == '\U{FEFF}'
  }

  /** Every character is white space (the empty string included). */
  predicate IsBlank(s: string)
  {
    forall i :: 0 <= i < |s| ==> IsSpace(s[i])
  }

  predicate HasNoSpace(s: string)
  {
    forall i :: 0 <= i < |s| ==> !IsSpace(s[i])
  }

  /** Neither starts nor ends with white space. */
  predicate IsTrimmed(s: string)
  {
    s == [] || (!IsSpace(s[0]) && !IsSpace(s[|s| - 1]))
  }

  /** `String.prototype.trimStart`. */
  function TrimStart(s: string): (r: string)
    ensures |r| <= |s| && r == s[|s| - |r|..]
    ensures IsBlank(s[..|s| - |r|])
    ensures r == [] || !IsSpace(r[0])
    decreases |s|
  {
    if s != [] && IsSpace(s[0]) then
      var r := TrimStart(s[1..]);
      SpaceBeforeBlank(s, r);
      r
    else
      s
  }

  /** `String.prototype.trimEnd`. */
  function TrimEnd(s: string): (r: string)
    ensures |r| <= |s| && r == s[..|r|]
    ensures IsBlank(s[|r|..])
    ensures r == [] || !IsSpace(r[|r| - 1])
    decreases |s|
  {
    if s != [] && IsSpace(s[|s| - 1]) then
      var r := TrimEnd(s[..|s| - 1]);
      SpaceAfterBlank(s, r);
      r
    else
      s
  }

  /** A string that starts with white space loses at least that character to `TrimStart`. */
  lemma TrimStartShortens(s: string)
    requires s != [] && IsSpace(s[0])
    ensures |TrimStart(s)| < |s|
  {
    assert TrimStart(s) == TrimStart(s[1..]);
  }

  /** A space in front of a blank run makes a longer blank run before the same remainder. */
  lemma SpaceBeforeBlank(s: string, r: string)
    requires s != [] && IsSpace(s[0])
    requires |r| <= |s| - 1 && r == s[1..][|s| - 1 - |r|..] && IsBlank(s[1..][..|s| - 1 - |r|])
    ensures r == s[|s| - |r|..] && IsBlank(s[..|s| - |r|])
  {
    assert s[1..][|s| - 1 - |r|..] == s[|s| - |r|..];
    var k := |s| - |r|;
    forall i | 0 <= i < k
      ensures IsSpace(s[..k][i])
    {
      if i > 0 {
        assert s[..k][i] == s[1..][..k - 1][i - 1];
      }
    }
  }

  /** A space after a blank run makes a longer blank run after the same beginning. */
  lemma SpaceAfterBlank(s: string, r: string)
    requires s != [] && IsSpace(s[|s| - 1])
    requires |r| <= |s| - 1 && r == s[..|s| - 1][..|r|] && IsBlank(s[..|s| - 1][|r|..])
    ensures r == s[..|r|] && IsBlank(s[|r|..])
  {
    assert s[..|s| - 1][..|r|] == s[..|r|];
    forall j | 0 <= j < |s| - |r|
      ensures IsSpace(s[|r|..][j])
    {
      if j < |s| - 1 - |r| {
        assert s[|r|..][j] == s[..|s| - 1][|r|..][j];
      }
    }
  }

  /** `String.prototype.trim`: the result neither starts nor ends with white space. */
  function Trim(s: string): (r: string)
    ensures IsTrimmed(r)
    ensures |r| <= |s|
  {
    var t := TrimStart(s);
    var r := TrimEnd(t);
    TrimStripsBoth(s, t, r);
    r
  }

  /** Trimming leaves nothing exactly when the string is all white space. */
  lemma TrimEmptyIffBlank(s: string)
    ensures Trim(s) == [] <==> IsBlank(s)
  {
    TrimStripsBoth(s, TrimStart(s), Trim(s));
  }

  /** Trimming leaves no white space at either end, and leaves nothing exactly when all was white space. */
  lemma TrimStripsBoth(s: string, t: string, r: string)
    requires t == TrimStart(s) && r == TrimEnd(t)
    ensures IsTrimmed(r) && |r| <= |s|
    ensures r == [] <==> IsBlank(s)
  {
    BlankIffTrimStartEmpty(s);
    BlankIffTrimEndEmpty(t);
    assert IsBlank(t) <==> t == [];
    assert r != [] ==> r[0] == t[0];
  }

  lemma BlankIffTrimStartEmpty(s: string)
    ensures IsBlank(s) <==> TrimStart(s) == []
  {
    var t := TrimStart(s);
    if IsBlank(s) {
      assert IsBlank(t) by { assert t == s[|s| - |t|..]; }
    }
    if t == [] {
      assert s[..|s|] == s;
    }
  }

  lemma BlankIffTrimEndEmpty(s: string)
    ensures IsBlank(s) <==> TrimEnd(s) == []
  {
    var r := TrimEnd(s);
    if IsBlank(s) {
      assert IsBlank(r) by { assert r == s[..|r|]; }
    }
    if r == [] {
      assert s[|r|..] == s;
    }
  }

  /** Trimming cuts a blank prefix and a blank suffix and keeps what is between them. */
  lemma TrimKeepsMiddle(s: string)
    ensures var r := Trim(s); var i := |s| - |TrimStart(s)|;
      i + |r| <= |s| && IsBlank(s[..i]) && r == s[i..][..|r|] && IsBlank(s[i..][|r|..])
  {
    var t := TrimStart(s);
    var r := TrimEnd(t);
    assert r == Trim(s);
    var i := |s| - |t|;
    assert s[i..] == t;
    assert IsBlank(t[|r|..]);
    assert s[i..][|r|..] == t[|r|..];
  }

  lemma TrimOfTrimmed(s: string)
    requires IsTrimmed(s)
    ensures Trim(s) == s
  {
  }

  /** `trim` is idempotent. */
  lemma TrimIdempotent(s: string)
    ensures Trim(Trim(s)) == Trim(s)
  {
    TrimOfTrimmed(Trim(s));
  }

  /** The length of the longest prefix of `s` without white space. */
  function WordEnd(s: string): (n: nat)
    ensures n <= |s| && HasNoSpace(s[..n])
    ensures n == |s| || IsSpace(s[n])
    decreases |s|
  {
    if s == [] || IsSpace(s[0]) then 0
    else
      var m := WordEnd(s[1..]);
      assert s[..1 + m] == [s[0]] + s[1..][..m];
      1 + m
  }

  /**
   * `s.split(/\s+/)`: the pieces between maximal runs of white space. A leading
   * or trailing run yields an empty first or last piece, and the empty string
   * splits into one empty piece, so there is always at least one piece.
   */
  function SplitSpaces(s: string): (r: seq<string>)
    ensures |r| >= 1
    ensures forall k :: 0 <= k < |r| ==> HasNoSpace(r[k])
    decreases |s|
  {
    var n := WordEnd(s);
    if n == |s| then
      assert s[..n] == s;
      [s]
    else
      var rest := TrimStart(s[n..]);
      TrimStartShortens(s[n..]);
      [s[..n]] + SplitSpaces(rest)
  }

  /** The leading white-space run of `s`, which `TrimStart` drops. */
  function Gap(s: string): string
  {
    s[..|s| - |TrimStart(s)|]
  }

  /** The white-space runs `split(/\s+/)` cuts at, one between each two neighbouring pieces. */
  function Separators(s: string): seq<string>
    decreases |s|
  {
    var n := WordEnd(s);
    if n == |s| then []
    else
      var rest := TrimStart(s[n..]);
      TrimStartShortens(s[n..]);
      [Gap(s[n..])] + Separators(rest)
  }

  /** Each element is a non-empty run of white space. */
  predicate AreRuns(seps: seq<string>)
  {
    forall k :: 0 <= k < |seps| ==> seps[k] != [] && IsBlank(seps[k])
  }

  lemma RunsCons(sep: string, seps: seq<string>)
    requires sep != [] && IsBlank(sep) && AreRuns(seps)
    ensures AreRuns([sep] + seps)
  {
  }

  /** What `TrimStart` drops from a string that starts with white space is a non-empty run of it. */
  lemma GapIsRun(s: string)
    requires s != [] && IsSpace(s[0])
    ensures Gap(s) != [] && IsBlank(Gap(s))
  {
  }

  /** Every separator is a non-empty run of white space. */
  lemma {:induction false} SeparatorsAreBlank(s: string)
    ensures AreRuns(Separators(s))
    decreases |s|
  {
    var n := WordEnd(s);
    if n < |s| {
      var tail := s[n..];
      var rest := TrimStart(tail);
      TrimStartShortens(tail);
      SeparatorsAreBlank(rest);
      SeparatorsStep(s);
      GapIsRun(tail);
      RunsCons(Gap(tail), Separators(rest));
    }
  }

  /** The pieces with the separators put back between them. */
  function Interleave(pieces: seq<string>, seps: seq<string>): string
    requires |pieces| == |seps| + 1
    decreases |seps|
  {
    if seps == [] then pieces[0] else pieces[0] + seps[0] + Interleave(pieces[1..], seps[1..])
  }

  /** Putting back the first piece and separator in front of the rest. */
  lemma InterleaveCons(piece: string, sep: string, pieces: seq<string>, seps: seq<string>)
    requires |pieces| == |seps| + 1
    ensures Interleave([piece] + pieces, [sep] + seps) == piece + sep + Interleave(pieces, seps)
  {
    assert ([piece] + pieces)[1..] == pieces && ([sep] + seps)[1..] == seps;
  }

  /** One step of `split(/\s+/)`: the first word, then the pieces of what follows the white space after it. */
  lemma SplitSpacesStep(s: string)
    requires WordEnd(s) < |s|
    ensures var n := WordEnd(s); SplitSpaces(s) == [s[..n]] + SplitSpaces(TrimStart(s[n..]))
  {
  }

  /** One step of the separators: the run of white space after the first word, then those of the rest. */
  lemma SeparatorsStep(s: string)
    requires WordEnd(s) < |s|
    ensures var n := WordEnd(s); Separators(s) == [Gap(s[n..])] + Separators(TrimStart(s[n..]))
  {
  }

  /** Joining the pieces of `split(/\s+/)` with the white-space runs between them gives back the string. */
  lemma {:induction false} SplitSpacesRoundTrip(s: string)
    ensures |SplitSpaces(s)| == |Separators(s)| + 1
    ensures Interleave(SplitSpaces(s), Separators(s)) == s
    decreases |s|
  {
    var n := WordEnd(s);
    if n == |s| {
      RoundTripWord(s);
    } else {
      var rest := TrimStart(s[n..]);
      TrimStartShortens(s[n..]);
      SplitSpacesRoundTrip(rest);
      RoundTripStep(s);
    }
  }

  /** A string without white space is its own single piece. */
  lemma RoundTripWord(s: string)
    requires WordEnd(s) == |s|
    ensures |SplitSpaces(s)| == |Separators(s)| + 1
    ensures Interleave(SplitSpaces(s), Separators(s)) == s
  {
    assert s[..WordEnd(s)] == s;
  }

  /** The round trip for what follows the first white-space run extends to the whole string. */
  lemma RoundTripStep(s: string)
    requires WordEnd(s) < |s|
    requires var rest := TrimStart(s[WordEnd(s)..]);
      |SplitSpaces(rest)| == |Separators(rest)| + 1 && Interleave(SplitSpaces(rest), Separators(rest)) == rest
    ensures |SplitSpaces(s)| == |Separators(s)| + 1
    ensures Interleave(SplitSpaces(s), Separators(s)) == s
  {
    var n := WordEnd(s);
    var rest := TrimStart(s[n..]);
    SplitSpacesStep(s);
    SeparatorsStep(s);
    WordGapRest(s);
    InterleaveAssemble(s, s[..n], Gap(s[n..]), rest, SplitSpaces(rest), Separators(rest), SplitSpaces(s), Separators(s));
  }

  /** The first word, the run after it and the trimmed remainder together give back the string. */
  lemma WordGapRest(s: string)
    requires WordEnd(s) < |s|
    ensures var n := WordEnd(s); s[..n] + Gap(s[n..]) + TrimStart(s[n..]) == s
  {
    var n := WordEnd(s);
    var tail := s[n..];
    calc {
      s[..n] + Gap(tail) + TrimStart(tail);
      { AppendAssoc(s[..n], Gap(tail), TrimStart(tail)); }
      s[..n] + (Gap(tail) + TrimStart(tail));
      { GapJoin(tail); }
      s[..n] + tail;
      { PrefixJoin(s, n); }
      s;
    }
  }

  /** The leading run and what `TrimStart` keeps make up the string. */
  lemma GapJoin(s: string)
    ensures Gap(s) + TrimStart(s) == s
  {
    PrefixJoin(s, |s| - |TrimStart(s)|);
  }

  /** A word and a separator put in front of an interleaving of `rest` interleave `word + sep + rest`. */
  lemma InterleaveAssemble(s: string, word: string, sep: string, rest: string,
                           pieces: seq<string>, seps: seq<string>, allPieces: seq<string>, allSeps: seq<string>)
    requires allPieces == [word] + pieces && allSeps == [sep] + seps
    requires |pieces| == |seps| + 1 && Interleave(pieces, seps) == rest
    requires word + sep + rest == s
    ensures |allPieces| == |allSeps| + 1 && Interleave(allPieces, allSeps) == s
  {
    InterleaveCons(word, sep, pieces, seps);
  }

  /** A trimmed, non-empty string splits into non-empty words only. */
  lemma {:induction false} SplitTrimmedHasNoEmptyPiece(s: string)
    requires IsTrimmed(s) && s != []
    ensures forall k :: 0 <= k < |SplitSpaces(s)| ==> SplitSpaces(s)[k] != []
    decreases |s|
  {
    var n := WordEnd(s);
    if n < |s| {
      var rest := TrimStart(s[n..]);
      assert IsBlank(s[n..][..|s[n..]| - |rest|]);
      assert rest != [];
      assert rest[|rest| - 1] == s[|s| - 1];
      SplitTrimmedHasNoEmptyPiece(rest);
      assert SplitSpaces(s) == [s[..n]] + SplitSpaces(rest);
    }
  }

  predicate IsNonEmpty(w: string)
  {
    w != []
  }

  /** `s.trim().split(/\s+/).filter(w => w.length > 0).length`: the number of words of `s`. */
  function WordCount(s: string): (n: nat)
    ensures n <= |SplitSpaces(Trim(s))|
  {
    |Filter(SplitSpaces(Trim(s)), IsNonEmpty)|
  }

  /** A string has a word exactly when it is not blank. */
  lemma WordCountPositive(s: string)
    ensures WordCount(s) > 0 <==> !IsBlank(s)
  {
    var t := Trim(s);
    if t == [] {
      NoWordsInEmpty();
    } else {
      SplitTrimmedHasNoEmptyPiece(t);
      FilterKeepsAll(SplitSpaces(t), IsNonEmpty);
    }
  }

  /** The empty string splits into one empty piece, which is no word. */
  lemma NoWordsInEmpty()
    ensures SplitSpaces([]) == [[]] && Filter(SplitSpaces([]), IsNonEmpty) == []
  {
    var pieces: seq<string> := [[]];
    assert SplitSpaces([]) == pieces;
    assert !IsNonEmpty(pieces[0]) && pieces[1..] == [];
  }

  /**
   * Splitting a trimmed string on white space without discarding empty pieces
   * counts its words, except that a blank string still gives one piece.
   */
  lemma SplitLengthIsWordCount(s: string)
    ensures |SplitSpaces(Trim(s))| == if IsBlank(s) then 1 else WordCount(s)
  {
    var t := Trim(s);
    if t == [] {
      NoWordsInEmpty();
    } else {
      SplitTrimmedHasNoEmptyPiece(t);
      FilterKeepsAll(SplitSpaces(t), IsNonEmpty);
    }
  }

  /** ASCII `toLowerCase` of one character. */
  function LowerChar(c: char): char
  {
    if 'A' <= c <= 'Z' then (c as int + 32) as char else c
  }

  /** `String.prototype.toLowerCase`, with case mapping restricted to ASCII letters. */
  function ToLower(s: string): (r: string)
    ensures |r| == |s|
    ensures forall i :: 0 <= i < |s| ==> r[i] == LowerChar(s[i])
    ensures forall i :: 0 <= i < |r| ==> !('A' <= r[i] <= 'Z')
  {
    seq(|s|, i requires 0 <= i < |s| => LowerChar(s[i]))
  }

  lemma ToLowerIdempotent(s: string)
    ensures ToLower(ToLower(s)) == ToLower(s)
  {
  }

  predicate StartsWith(s: string, prefix: string)
  {
    |prefix| <= |s| && s[..|prefix|] == prefix
  }

  /** `String.prototype.endsWith`. */
  predicate EndsWith(s: string, suffix: string)
  {
    |suffix| <= |s| && s[|s| - |suffix|..] == suffix
  }

  /** `q` occurs in `s` at position `i`. */
  predicate OccursAt(s: string, q: string, i: nat)
  {
    i + |q| <= |s| && s[i..i + |q|] == q
  }

  /** `String.prototype.includes`. */
  predicate Contains(s: string, q: string)
    decreases |s|
  {
    StartsWith(s, q) || (s != [] && Contains(s[1..], q))
  }

  lemma OccursShift(s: string, q: string, j: nat)
    requires s != []
    ensures OccursAt(s, q, j + 1) <==> OccursAt(s[1..], q, j)
  {
    if j + 1 + |q| <= |s| {
      assert s[j + 1..j + 1 + |q|] == s[1..][j..j + |q|];
    }
  }

  /** Whatever stands between two strings is contained in their concatenation. */
  lemma ContainsInfix(a: string, q: string, b: string)
    ensures Contains(a + q + b, q)
  {
    assert (a + q + b)[|a|..|a| + |q|] == q;
    ContainsIffOccurs(a + q + b, q, |a|);
  }

  /** `parts.join('')`. */
  function Concat(parts: seq<string>): string
    decreases |parts|
  {
    if parts == [] then "" else parts[0] + Concat(parts[1..])
  }

  /** Joining two lists of parts is joining each and putting the results together. */
  lemma {:induction false} ConcatAppend(a: seq<string>, b: seq<string>)
    ensures Concat(a + b) == Concat(a) + Concat(b)
    decreases |a|
  {
    if a == [] {
      assert a + b == b;
    } else {
      calc {
        Concat(a + b);
        { assert (a + b)[0] == a[0] && (a + b)[1..] == a[1..] + b; }
        a[0] + Concat(a[1..] + b);
        { ConcatAppend(a[1..], b); }
        a[0] + (Concat(a[1..]) + Concat(b));
        { AppendAssoc(a[0], Concat(a[1..]), Concat(b)); }
        Concat(a) + Concat(b);
      }
    }
  }

  /** The join of the parts is what comes before part `k`, part `k`, and what comes after it. */
  lemma ConcatAround(parts: seq<string>, k: nat)
    requires k < |parts|
    ensures Concat(parts) == Concat(parts[..k]) + parts[k] + Concat(parts[k + 1..])
  {
    var after := parts[k..];
    calc {
      Concat(parts);
      { PrefixJoin(parts, k); }
      Concat(parts[..k] + after);
      { ConcatAppend(parts[..k], after); }
      Concat(parts[..k]) + Concat(after);
      { assert after[0] == parts[k] && after[1..] == parts[k + 1..]; }
      Concat(parts[..k]) + (parts[k] + Concat(parts[k + 1..]));
      { AppendAssoc(Concat(parts[..k]), parts[k], Concat(parts[k + 1..])); }
      Concat(parts[..k]) + parts[k] + Concat(parts[k + 1..]);
    }
  }

  /** Every part is contained in the join. */
  lemma ConcatHasPart(parts: seq<string>, k: nat)
    requires k < |parts|
    ensures Contains(Concat(parts), parts[k])
  {
    ConcatAround(parts, k);
    ContainsInfix(Concat(parts[..k]), parts[k], Concat(parts[k + 1..]));
  }

  /** What a string contains, anything built around it contains too. */
  lemma ContainsWithin(a: string, s: string, b: string, q: string)
    requires Contains(s, q)
    ensures Contains(a + s + b, q)
  {
    ContainsIffOccurs(s, q, 0);
    var j := FirstOccurrence(s, q);
    assert (a + s + b)[|a| + j..|a| + j + |q|] == s[j..j + |q|];
    ContainsIffOccurs(a + s + b, q, |a| + j);
  }

  /** The first position at which `q` occurs in `s`. */
  function FirstOccurrence(s: string, q: string): (i: nat)
    requires Contains(s, q)
    ensures OccursAt(s, q, i)
    ensures forall j: nat :: j < i ==> !OccursAt(s, q, j)
    decreases |s|
  {
    if StartsWith(s, q) then
      assert s[0..|q|] == s[..|q|];
      0
    else
      var j := FirstOccurrence(s[1..], q);
      OccursShift(s, q, j);
      assert !OccursAt(s, q, 0) by {
        assert s[0..|q|] == s[..|q|] || |q| > |s|;
      }
      assert forall k: nat :: 0 < k < 1 + j ==> !OccursAt(s, q, k) by {
        forall k: nat | 0 < k < 1 + j
          ensures !OccursAt(s, q, k)
        {
          OccursShift(s, q, k - 1);
        }
      }
      1 + j
  }

  /** `includes` holds exactly when the pattern occurs at some position. */
  lemma {:induction false} ContainsIffOccurs(s: string, q: string, i: nat)
    ensures OccursAt(s, q, i) ==> Contains(s, q)
    ensures Contains(s, q) ==> OccursAt(s, q, FirstOccurrence(s, q))
    decreases i
  {
    if OccursAt(s, q, i) {
      if i == 0 {
        assert s[0..|q|] == s[..|q|];
      } else {
        OccursShift(s, q, i - 1);
        ContainsIffOccurs(s[1..], q, i - 1);
      }
    }
  }

  /**
   * `s.replace(pattern, replacement)` with a string pattern: only the first
   * occurrence is replaced, and `s` is returned as it is when there is none.
   */
  function ReplaceFirst(s: string, pattern: string, replacement: string): string
  {
    if Contains(s, pattern) then
      var i := FirstOccurrence(s, pattern);
      s[..i] + replacement + s[i + |pattern|..]
    else
      s
  }

  /** Without an occurrence nothing changes; otherwise the text before and after the first occurrence stays around the replacement. */
  lemma ReplaceFirstAtFirstOccurrence(s: string, pattern: string, replacement: string)
    ensures !Contains(s, pattern) ==> ReplaceFirst(s, pattern, replacement) == s
    ensures Contains(s, pattern) ==>
      var r := ReplaceFirst(s, pattern, replacement);
      var i := FirstOccurrence(s, pattern);
      && |r| == |s| - |pattern| + |replacement|
      && r[..i] == s[..i]
      && r[i..i + |replacement|] == replacement
      && r[i + |replacement|..] == s[i + |pattern|..]
  {
  }

  /** `s.replace(/<suffix>$/, '')`: the suffix is removed only where it ends the string. */
  function StripSuffix(s: string, suffix: string): (r: string)
    ensures EndsWith(s, suffix) ==> r + suffix == s
    ensures !EndsWith(s, suffix) ==> r == s
  {
    if EndsWith(s, suffix) then s[..|s| - |suffix|] else s
  }

  /** `s.slice(0, n)`: at most the first `n` characters. */
  function Take(s: string, n: nat): (r: string)
    ensures |r| == if |s| <= n then |s| else n
    ensures r == s[..|r|]
    ensures |s| <= n ==> r == s
  {
    if |s| <= n then s else s[..n]
  }

  /** `Math.ceil(n / 200)`: the fewest whole minutes that cover `n` words at 200 words a minute. */
  function MinutesFor(n: nat): (m: nat)
    ensures n <= m * 200
    ensures m == 0 || (m - 1) * 200 < n
  {
    (n + 199) / 200
  }
}
