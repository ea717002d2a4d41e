/**
 * The .NET string operations the dialogue code relies on, written out:
 * `Trim`, `string.IsNullOrWhiteSpace`, `Split(char)` and
 * `Split(char[], StringSplitOptions.RemoveEmptyEntries)`.
 * Whitespace is a fixed set: space, tab, LF, VT, FF and CR.
 */
module Text {

  predicate IsWhiteSpace(c: char) {
    c == ' ' || c == '\t' || c == '\n' || c == '\r' || c == '\U{0B}' || c == '\U{0C}'
  }

  /** `string.IsNullOrWhiteSpace` for a non-null string. */
  predicate IsBlank(s: string) {
    forall i :: 0 <= i < |s| ==> IsWhiteSpace(s[i])
  }

  /** No whitespace at either end (the shape of every `Trim` result). */
  predicate IsTrimmed(s: string) {
    s == [] || (!IsWhiteSpace(s[0]) && !IsWhiteSpace(s[|s| - 1]))
  }

  function TrimStart(s: string): (r: string)
    ensures |r| <= |s| && r == s[|s| - |r|..]
    ensures forall i :: 0 <= i < |s| - |r| ==> IsWhiteSpace(s[i])
    ensures r == [] || !IsWhiteSpace(r[0])
  {
    if s != [] && IsWhiteSpace(s[0]) then TrimStart(s[1..]) else s
  }

  function TrimEnd(s: string): (r: string)
    ensures |r| <= |s| && r == s[..|r|]
    ensures forall i :: |r| <= i < |s| ==> IsWhiteSpace(s[i])
    ensures r == [] || !IsWhiteSpace(r[|r| - 1])
  {
    if s != [] && IsWhiteSpace(s[|s| - 1]) then TrimEnd(s[..|s| - 1]) else s
  }

  /** `String.Trim()`: what is left of `s` after removing whitespace at both ends. */
  function Trim(s: string): (r: string)
    ensures IsTrimmed(r)
    ensures |r| <= |s|
  {
    TrimEnd(TrimStart(s))
  }

  /**
   * `Trim` cuts `s` into three pieces: leading whitespace, the result, and
   * trailing whitespace; the leading piece is what `TrimStart` removes.
   */
  lemma {:induction false} TrimCutsBlankEnds(s: string)
    ensures var r := Trim(s); var k := |s| - |TrimStart(s)|;
      && k + |r| <= |s| && r == s[k..k + |r|] && IsBlank(s[..k]) && IsBlank(s[k + |r|..])
  {
    var t := TrimStart(s);
    var k := |s| - |t|;
    var r := TrimEnd(t);
    var head, tail := s[..k], s[k + |r|..];
    forall i | 0 <= i < |head| ensures IsWhiteSpace(head[i]) {
      assert head[i] == s[i];
    }
    forall i | 0 <= i < |tail| ensures IsWhiteSpace(tail[i]) {
      assert tail[i] == t[|r| + i];
    }
  }

  lemma {:induction false} TrimKeepsChars(s: string, c: char)
    requires c in Trim(s)
    ensures c in s
  {
    var t := TrimStart(s);
    var r := TrimEnd(t);
    var j :| 0 <= j < |r| && r[j] == c;
    assert r[j] == t[j];
    assert t[j] == s[|s| - |t| + j];
  }

  /** Trimming leaves nothing exactly when the string is blank. */
  lemma {:induction false} TrimEmptyIffBlank(s: string)
    ensures Trim(s) == [] <==> IsBlank(s)
  {
    var t := TrimStart(s);
    if Trim(s) == [] {
      assert t == [];
    }
  }

  lemma {:induction false} TrimStartOfTrimmed(s: string)
    requires s == [] || !IsWhiteSpace(s[0])
    ensures TrimStart(s) == s
  {
  }

  lemma {:induction false} TrimEndOfTrimmed(s: string)
    requires s == [] || !IsWhiteSpace(s[|s| - 1])
    ensures TrimEnd(s) == s
  {
  }

  /** Trimming leaves an already trimmed string alone, so `Trim` is idempotent. */
  lemma {:induction false} TrimOfTrimmed(s: string)
    requires IsTrimmed(s)
    ensures Trim(s) == s
  {
    TrimStartOfTrimmed(s);
    TrimEndOfTrimmed(s);
  }

  lemma {:induction false} TrimIdempotent(s: string)
    ensures Trim(Trim(s)) == Trim(s)
  {
    TrimOfTrimmed(Trim(s));
  }

  /** Trailing whitespace (a CR left by a CRLF line break, say) never survives a trim. */
  lemma {:induction false} TrimEndAppendWhite(s: string, c: char)
    requires IsWhiteSpace(c)
    ensures TrimEnd(s + [c]) == TrimEnd(s)
  {
    assert (s + [c])[..|s|] == s;
  }

  lemma {:induction false} TrimStartAppend(s: string, c: char)
    requires !IsBlank(s)
    ensures TrimStart(s + [c]) == TrimStart(s) + [c]
  {
    if s != [] && IsWhiteSpace(s[0]) {
      assert (s + [c])[1..] == s[1..] + [c];
      assert !IsBlank(s[1..]) by {
        var k :| 0 <= k < |s| && !IsWhiteSpace(s[k]);
        assert s[1..][k - 1] == s[k];
      }
      TrimStartAppend(s[1..], c);
    }
  }

  lemma {:induction false} TrimAppendWhite(s: string, c: char)
    requires IsWhiteSpace(c)
    ensures Trim(s + [c]) == Trim(s)
  {
    if IsBlank(s) {
      assert IsBlank(s + [c]) by {
        forall i | 0 <= i < |s + [c]| ensures IsWhiteSpace((s + [c])[i]) {
          if i < |s| { assert (s + [c])[i] == s[i]; }
        }
      }
    } else {
      TrimStartAppend(s, c);
      TrimEndAppendWhite(TrimStart(s), c);
    }
  }

  /** Removing whitespace at the end of a string whose first part ends in a non-blank character only touches the second part. */
  lemma {:induction false} TrimEndConcat(a: string, b: string)
    requires a != [] && !IsWhiteSpace(a[|a| - 1])
    ensures TrimEnd(a + b) == a + TrimEnd(b)
  {
    if b == [] {
      assert a + b == a;
      TrimEndOfTrimmed(a);
    } else if IsWhiteSpace(b[|b| - 1]) {
      assert (a + b)[..|a + b| - 1] == a + b[..|b| - 1];
      TrimEndConcat(a, b[..|b| - 1]);
    } else {
      TrimEndOfTrimmed(a + b);
      TrimEndOfTrimmed(b);
    }
  }

  // ---------------------------------------------------------------- counting

  function CountIn(s: string, seps: set<char>): (n: nat)
    ensures n <= |s|
  {
    if s == [] then 0 else (if s[0] in seps then 1 else 0) + CountIn(s[1..], seps)
  }

  // ---------------------------------------------------------------- splitting

  /**
   * `s.Split(seps)` without options: one part per separator plus one, every
   * part free of separators; an empty string gives one empty part.
   */
  function Split(s: string, seps: set<char>): (parts: seq<string>)
    ensures |parts| == CountIn(s, seps) + 1
    ensures forall i, c :: 0 <= i < |parts| && c in parts[i] ==> c !in seps
  {
    if s == [] then [[]] else Prepend(s[0], Split(s[1..], seps), seps)
  }

  /** The parts of `[c] + t` from the parts of `t`: a separator opens a new empty part, any other character joins the first part. */
  function Prepend(c: char, parts: seq<string>, seps: set<char>): (r: seq<string>)
    requires |parts| >= 1
    ensures |r| == |parts| + (if c in seps then 1 else 0)
  {
    if c in seps then [[]] + parts else [[c] + parts[0]] + parts[1..]
  }

  lemma {:induction false} PrependAppend(c: char, p: seq<string>, q: seq<string>, seps: set<char>)
    requires |p| >= 1
    ensures Prepend(c, p + q, seps) == Prepend(c, p, seps) + q
  {
    if c !in seps {
      assert (p + q)[0] == p[0];
      assert (p + q)[1..] == p[1..] + q;
    }
  }

  /** `string.Join(sep, parts)`, the inverse of splitting on one separator. */
  function Join(parts: seq<string>, sep: char): string {
    if parts == [] then []
    else if |parts| == 1 then parts[0]
    else parts[0] + [sep] + Join(parts[1..], sep)
  }

  predicate FreeOf(parts: seq<string>, sep: char) {
    forall i :: 0 <= i < |parts| ==> sep !in parts[i]
  }

  /** Splitting a string and joining the parts back gives the string. */
  lemma {:induction false} JoinSplit(s: string, sep: char)
    ensures Join(Split(s, {sep}), sep) == s
  {
    if s != [] {
      var rest := Split(s[1..], {sep});
      JoinSplit(s[1..], sep);
      if s[0] == sep {
        assert Split(s, {sep}) == [[]] + rest;
        assert ([[]] + rest)[1..] == rest;
      } else {
        var parts := [[s[0]] + rest[0]] + rest[1..];
        assert Split(s, {sep}) == parts;
        if |rest| == 1 {
          assert Join(rest, sep) == rest[0];
        } else {
          assert parts[1..] == rest[1..];
          assert Join(rest, sep) == rest[0] + [sep] + Join(rest[1..], sep);
        }
      }
    }
  }

  lemma {:induction false} SplitPrefixPart(p: string, s: string, seps: set<char>)
    requires forall c :: c in p ==> c !in seps
    ensures Split(p + s, seps) == [p + Split(s, seps)[0]] + Split(s, seps)[1..]
  {
    if p != [] {
      assert p + s == [p[0]] + (p[1..] + s);
      SplitPrefixPart(p[1..], s, seps);
      SplitCons(p[0], p[1..] + s, seps);
      var rest := Split(p[1..] + s, seps);
      assert rest[1..] == Split(s, seps)[1..];
      assert [p[0]] + (p[1..] + Split(s, seps)[0]) == p + Split(s, seps)[0];
    } else {
      assert p + s == s;
      assert p + Split(s, seps)[0] == Split(s, seps)[0];
      assert Split(s, seps) == [Split(s, seps)[0]] + Split(s, seps)[1..];
    }
  }

  /** One step of `Split`, for a string given as its first character and the rest. */
  lemma {:induction false} SplitCons(c: char, t: string, seps: set<char>)
    ensures Split([c] + t, seps) == Prepend(c, Split(t, seps), seps)
  {
    assert ([c] + t)[1..] == t;
  }

  /** A separator in the middle splits the two sides independently. */
  lemma {:induction false} SplitAtSeparator(a: string, c: char, b: string, seps: set<char>)
    requires c in seps
    ensures Split(a + [c] + b, seps) == Split(a, seps) + Split(b, seps)
  {
    if a == [] {
      assert a + [c] + b == [c] + b;
      SplitCons(c, b, seps);
    } else {
      var x, a' := a[0], a[1..];
      assert a + [c] + b == [x] + (a' + [c] + b);
      assert a == [x] + a';
      SplitAtSeparator(a', c, b, seps);
      SplitCons(x, a' + [c] + b, seps);
      SplitCons(x, a', seps);
      PrependAppend(x, Split(a', seps), Split(b, seps), seps);
    }
  }

  /** Joining separator-free parts and splitting again recovers the parts. */
  lemma {:induction false} SplitJoin(parts: seq<string>, sep: char)
    requires |parts| >= 1 && FreeOf(parts, sep)
    ensures Split(Join(parts, sep), {sep}) == parts
  {
    if |parts| == 1 {
      SplitPrefixPart(parts[0], [], {sep});
      assert parts[0] + [] == parts[0];
    } else {
      var rest := parts[1..];
      SplitJoin(rest, sep);
      assert Join(parts, sep) == parts[0] + [sep] + Join(rest, sep);
      SplitAtSeparator(parts[0], sep, Join(rest, sep), {sep});
      SplitPrefixPart(parts[0], [], {sep});
      assert parts[0] + [] == parts[0];
      assert parts == [parts[0]] + rest;
    }
  }

  /** The entries `Split(..., RemoveEmptyEntries)` keeps. */
  function RemoveEmpty(parts: seq<string>): (r: seq<string>)
    ensures |r| <= |parts|
    ensures forall i :: 0 <= i < |r| ==> r[i] != []
  {
    if parts == [] then []
    else (if parts[0] == [] then [] else [parts[0]]) + RemoveEmpty(parts[1..])
  }

  lemma {:induction false} RemoveEmptyKeeps(parts: seq<string>, k: nat)
    requires k < |parts| && parts[k] != []
    ensures parts[k] in RemoveEmpty(parts)
  {
    if k > 0 {
      RemoveEmptyKeeps(parts[1..], k - 1);
    }
  }

  const LineBreaks: set<char> := {'\r', '\n'}

  /** `s.Split(new[] { '\r', '\n' }, StringSplitOptions.RemoveEmptyEntries)`. */
  function NonEmptyLines(s: string): (lines: seq<string>)
    ensures forall i :: 0 <= i < |lines| ==> lines[i] != [] && CountIn(lines[i], LineBreaks) == 0
  {
    var parts := Split(s, LineBreaks);
    var lines := RemoveEmpty(parts);
    assert forall i :: 0 <= i < |lines| ==> lines[i] in parts by {
      RemoveEmptySubset(parts);
    }
    forall i | 0 <= i < |lines| ensures CountIn(lines[i], LineBreaks) == 0 {
      NoSeparatorNoCount(lines[i], LineBreaks);
    }
    lines
  }

  lemma {:induction false} RemoveEmptySubset(parts: seq<string>)
    ensures forall x :: x in RemoveEmpty(parts) ==> x in parts
  {
    if parts != [] {
      RemoveEmptySubset(parts[1..]);
    }
  }

  lemma {:induction false} NoSeparatorNoCount(s: string, seps: set<char>)
    requires forall c :: c in s ==> c !in seps
    ensures CountIn(s, seps) == 0
  {
    if s != [] {
      NoSeparatorNoCount(s[1..], seps);
    }
  }

  /** The same text with every LF turned into CR LF (Windows line endings). */
  function ToCrlf(s: string): (r: string)
    ensures |r| == |s| + CountIn(s, {'\n'})
  {
    if s == [] then [] else (if s[0] == '\n' then "\r\n" else [s[0]]) + ToCrlf(s[1..])
  }

  lemma {:induction false} RemoveEmptyCons(h: string, t: seq<string>)
    ensures RemoveEmpty([h] + t) == (if h == [] then [] else [h]) + RemoveEmpty(t)
  {
    assert ([h] + t)[1..] == t;
  }

  lemma {:induction false} CrlfSplitAgrees(s: string)
    ensures Split(ToCrlf(s), LineBreaks)[0] == Split(s, LineBreaks)[0]
    ensures RemoveEmpty(Split(ToCrlf(s), LineBreaks)[1..]) == RemoveEmpty(Split(s, LineBreaks)[1..])
  {
    if s != [] {
      var t := s[1..];
      var x := ToCrlf(t);
      CrlfSplitAgrees(t);
      var a', b' := Split(x, LineBreaks), Split(t, LineBreaks);
      assert s == [s[0]] + t;
      SplitCons(s[0], t, LineBreaks);
      if s[0] == '\n' {
        assert ToCrlf(s) == ['\r'] + (['\n'] + x);
        SplitCons('\r', ['\n'] + x, LineBreaks);
        SplitCons('\n', x, LineBreaks);
        assert ([[]] + ([[]] + a'))[1..] == [[]] + a';
        assert ([[]] + b')[1..] == b';
        RemoveEmptyCons([], a');
        assert a' == [a'[0]] + a'[1..];
        assert b' == [b'[0]] + b'[1..];
        RemoveEmptyCons(a'[0], a'[1..]);
        RemoveEmptyCons(b'[0], b'[1..]);
      } else {
        assert ToCrlf(s) == [s[0]] + x;
        SplitCons(s[0], x, LineBreaks);
        if s[0] == '\r' {
          assert ([[]] + a')[1..] == a';
          assert ([[]] + b')[1..] == b';
          assert a' == [a'[0]] + a'[1..];
          assert b' == [b'[0]] + b'[1..];
          RemoveEmptyCons(a'[0], a'[1..]);
          RemoveEmptyCons(b'[0], b'[1..]);
        }
      }
    }
  }

  /** Line breaks before the text only make empty entries, which are dropped. */
  lemma {:induction false} LeadingBreaksDropped(lead: string, s: string)
    requires forall c :: c in lead ==> c in LineBreaks
    ensures NonEmptyLines(lead + s) == NonEmptyLines(s)
  {
    if lead != [] {
      var rest := lead[1..];
      assert lead[0] in lead && forall c :: c in rest ==> c in lead;
      LeadingBreaksDropped(rest, s);
      assert lead + s == [lead[0]] + (rest + s);
      SplitCons(lead[0], rest + s, LineBreaks);
      RemoveEmptyCons([], Split(rest + s, LineBreaks));
    } else {
      assert lead + s == s;
    }
  }

  /** LF and CRLF input give the same list of non-empty lines. */
  lemma {:induction false} CrlfSameLines(s: string)
    ensures NonEmptyLines(ToCrlf(s)) == NonEmptyLines(s)
  {
    CrlfSplitAgrees(s);
    var a, b := Split(ToCrlf(s), LineBreaks), Split(s, LineBreaks);
    assert a == [a[0]] + a[1..];
    assert b == [b[0]] + b[1..];
  }

  /** Without any CR, splitting on CR and LF is splitting on LF alone. */
  lemma {:induction false} SplitWithoutCr(s: string)
    requires '\r' !in s
    ensures Split(s, LineBreaks) == Split(s, {'\n'})
  {
    if s != [] {
      SplitWithoutCr(s[1..]);
    }
  }
}
