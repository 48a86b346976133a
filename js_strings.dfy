/** The JavaScript string operations the endpoint relies on (`trim`, `split`,
    `includes`, `startsWith`, `endsWith`, a global one-character `replace`),
    stated over Dafny strings, together with their defining properties. */
module JsStrings {

  /** The characters `String.prototype.trim` removes: ECMAScript WhiteSpace
      (tab, vertical tab, form feed, space, no-break space, byte order mark and
      the Unicode space separators) and LineTerminator (LF, CR, LS, PS). */
  predicate IsJsWhitespace(c: char) {
    c == ' ' || c == '\t' || c == '\n' || c == '\r' || c == '\U{B}' || c == '\U{C}'
    || c == '\U{A0}' || c == '\U{FEFF}' || c == '\U{1680}'
    || ('\U{2000}' <= c <= '\U{200A}')
    || c == '\U{2028}' || c == '\U{2029}' || c == '\U{202F}' || c == '\U{205F}' || c == '\U{3000}'
  }

  predicate StartsWith(s: string, prefix: string) {
    |prefix| <= |s| && s[..|prefix|] == prefix
  }

  predicate EndsWith(s: string, suffix: string) {
    |suffix| <= |s| && s[|s| - |suffix|..] == suffix
  }

  /** `sub` occurs in `s` starting at index `i`. */
  predicate OccursAt(s: string, sub: string, i: int) {
    0 <= i && i + |sub| <= |s| && s[i..i + |sub|] == sub
  }

  /** `s.includes(sub)`. */
  predicate Contains(s: string, sub: string)
    decreases |s|
  {
    StartsWith(s, sub) || (s != [] && Contains(s[1..], sub))
  }

  lemma {:induction false} ContainsIff(s: string, sub: string)
    ensures Contains(s, sub) <==> exists i :: OccursAt(s, sub, i)
    decreases |s|
  {
    if StartsWith(s, sub) {
      assert OccursAt(s, sub, 0);
    } else if s != [] {
      ContainsIff(s[1..], sub);
      forall i | 0 < i
        ensures OccursAt(s, sub, i) <==> OccursAt(s[1..], sub, i - 1)
      {
        if i + |sub| <= |s| {
          assert s[1..][i - 1..i - 1 + |sub|] == s[i..i + |sub|];
        }
      }
      if Contains(s[1..], sub) {
        var i :| OccursAt(s[1..], sub, i);
        assert OccursAt(s, sub, i + 1);
      }
    }
  }

  lemma EndsWithLastChar(s: string, c: char)
    requires s != [] && s[|s| - 1] == c
    ensures EndsWith(s, [c])
  {
    assert s[|s| - 1..] == [c];
  }

  /** `s.trimStart()`: `s` without its leading whitespace. */
  function TrimStart(s: string): (r: string)
    ensures |r| <= |s|
    ensures r == [] || (!IsJsWhitespace(r[0]) && r[|r| - 1] == s[|s| - 1])
    ensures s != [] && !IsJsWhitespace(s[|s| - 1]) ==> r != []
  {
    if s != [] && IsJsWhitespace(s[0]) then TrimStart(s[1..]) else s
  }

  /** `s.trimEnd()`: `s` without its trailing whitespace. */
  function TrimEnd(s: string): (r: string)
    ensures |r| <= |s|
    ensures r == [] || (!IsJsWhitespace(r[|r| - 1]) && r[0] == s[0])
    ensures s != [] && !IsJsWhitespace(s[0]) ==> r != []
  {
    if s != [] && IsJsWhitespace(s[|s| - 1]) then TrimEnd(s[..|s| - 1]) else s
  }

  /** `s.trim()`: `s` without its leading and trailing whitespace. */
  function Trim(s: string): (r: string)
    ensures |r| <= |s|
    ensures r == [] || (!IsJsWhitespace(r[0]) && !IsJsWhitespace(r[|r| - 1]))
  {
    TrimEnd(TrimStart(s))
  }

  /** `r` is the infix of `s` starting at `lead`, and everything of `s`
      around it is whitespace. */
  predicate IsTrimmedAt(s: string, r: string, lead: int) {
    0 <= lead <= |s| - |r| && r == s[lead..lead + |r|]
    && (forall i :: 0 <= i < lead ==> IsJsWhitespace(s[i]))
    && (forall i :: lead + |r| <= i < |s| ==> IsJsWhitespace(s[i]))
  }

  lemma {:induction false} TrimStartDropsLeadingWhitespace(s: string)
    ensures IsTrimmedAt(s, TrimStart(s), |s| - |TrimStart(s)|)
  {
    if s != [] && IsJsWhitespace(s[0]) {
      var r := TrimStart(s[1..]);
      TrimStartDropsLeadingWhitespace(s[1..]);
      assert s[1..][|s| - 1 - |r|..] == s[|s| - |r|..];
      assert forall i :: 1 <= i < |s| - |r| ==> s[i] == s[1..][i - 1];
    }
  }

  lemma {:induction false} TrimEndDropsTrailingWhitespace(s: string)
    ensures IsTrimmedAt(s, TrimEnd(s), 0)
  {
    if s != [] && IsJsWhitespace(s[|s| - 1]) {
      var t := s[..|s| - 1];
      TrimEndDropsTrailingWhitespace(t);
      assert forall i :: 0 <= i < |TrimEnd(t)| ==> t[i] == s[i];
      assert forall i :: |TrimEnd(t)| <= i < |t| ==> t[i] == s[i];
    }
  }

  /** When the first non-whitespace character of `s` is at `k`, trimming the
      start leaves `s[k..]`. */
  lemma {:induction false} TrimStartAt(s: string, k: nat)
    requires k < |s| && !IsJsWhitespace(s[k])
    requires forall i :: 0 <= i < k ==> IsJsWhitespace(s[i])
    ensures TrimStart(s) == s[k..]
  {
    if k > 0 {
      TrimStartAt(s[1..], k - 1);
      assert s[1..][k - 1..] == s[k..];
    }
  }

  /** When the last non-whitespace character of `s` is at `k`, trimming the
      end leaves `s[..k + 1]`. */
  lemma {:induction false} TrimEndAt(s: string, k: nat)
    requires k < |s| && !IsJsWhitespace(s[k])
    requires forall i :: k < i < |s| ==> IsJsWhitespace(s[i])
    ensures TrimEnd(s) == s[..k + 1]
    decreases |s|
  {
    if k < |s| - 1 {
      var t := s[..|s| - 1];
      TrimEndAt(t, k);
      assert t[..k + 1] == s[..k + 1];
    }
  }

  /** The first non-whitespace character of `s` is the first character of
      `Trim(s)`. */
  lemma {:induction false} TrimStartsAt(s: string, k: nat)
    requires k < |s| && !IsJsWhitespace(s[k])
    requires forall i :: 0 <= i < k ==> IsJsWhitespace(s[i])
    ensures Trim(s) != [] && Trim(s)[0] == s[k]
  {
    TrimStartAt(s, k);
  }

  /** The last non-whitespace character of `s` is the last character of
      `Trim(s)`. */
  lemma {:induction false} TrimEndsAt(s: string, k: nat)
    requires k < |s| && !IsJsWhitespace(s[k])
    requires forall i :: k < i < |s| ==> IsJsWhitespace(s[i])
    ensures Trim(s) != [] && Trim(s)[|Trim(s)| - 1] == s[k]
  {
    TrimIsInfix(s);
    var r := Trim(s);
    var lead := |s| - |TrimStart(s)|;
    assert r != [] ==> lead + |r| - 1 == k;
  }

  /** Trimming a suffix of `s` that still holds the last non-whitespace
      character of `s` ends at that character. */
  lemma {:induction false} TrimSuffixEndsAt(s: string, offset: nat, k: nat)
    requires offset <= k < |s| && !IsJsWhitespace(s[k])
    requires forall i :: k < i < |s| ==> IsJsWhitespace(s[i])
    ensures Trim(s[offset..]) != [] && Trim(s[offset..])[|Trim(s[offset..])| - 1] == s[k]
  {
    var p := s[offset..];
    forall i | k - offset < i < |p|
      ensures IsJsWhitespace(p[i])
    {
      assert p[i] == s[offset + i];
    }
    TrimEndsAt(p, k - offset);
  }

  /** What `Trim` removes is whitespace on both sides, and nothing else. */
  lemma {:induction false} TrimIsInfix(s: string)
    ensures IsTrimmedAt(s, Trim(s), |s| - |TrimStart(s)|)
  {
    var t := TrimStart(s);
    TrimStartDropsLeadingWhitespace(s);
    TrimEndDropsTrailingWhitespace(t);
    var lead := |s| - |t|;
    assert t == s[lead..];
    assert forall i :: 0 <= i < |t| ==> t[i] == s[lead + i];
  }

  lemma {:induction false} TrimIdempotent(s: string)
    ensures Trim(Trim(s)) == Trim(s)
  {
    var r := Trim(s);
    assert TrimStart(r) == r;
    assert TrimEnd(r) == r;
  }

  /** The number of occurrences of `c` in `s`. */
  function Count(s: string, c: char): nat {
    if s == [] then 0 else (if s[0] == c then 1 else 0) + Count(s[1..], c)
  }

  /** `parts.join(sep)` for a one-character separator. */
  function Join(parts: seq<string>, sep: char): string {
    if parts == [] then ""
    else if |parts| == 1 then parts[0]
    else parts[0] + [sep] + Join(parts[1..], sep)
  }

  /** `s.split(sep)` for a one-character separator: the maximal runs of
      `s` between separators, in order; the empty string splits into one
      empty piece. */
  function Split(s: string, sep: char): (parts: seq<string>)
    ensures |parts| >= 1
    ensures forall i :: 0 <= i < |parts| ==> sep !in parts[i]
  {
    if s == [] then [""]
    else
      var rest := Split(s[1..], sep);
      if s[0] == sep then [""] + rest
      else [[s[0]] + rest[0]] + rest[1..]
  }

  lemma {:induction false} JoinSplit(s: string, sep: char)
    ensures Join(Split(s, sep), sep) == s
  {
    if s != [] {
      var rest := Split(s[1..], sep);
      JoinSplit(s[1..], sep);
      if s[0] == sep {
        assert ([""] + rest)[1..] == rest;
      } else {
        var parts := [[s[0]] + rest[0]] + rest[1..];
        if |rest| > 1 {
          assert parts[1..] == rest[1..];
        }
      }
    }
  }

  lemma {:induction false} SplitJoin(parts: seq<string>, sep: char)
    requires |parts| >= 1
    requires forall i :: 0 <= i < |parts| ==> sep !in parts[i]
    ensures Split(Join(parts, sep), sep) == parts
    decreases |parts|, |parts[0]|
  {
    var s := Join(parts, sep);
    if parts[0] == [] {
      if |parts| > 1 {
        SplitJoin(parts[1..], sep);
        assert s == [sep] + Join(parts[1..], sep);
        assert s[1..] == Join(parts[1..], sep);
      }
    } else {
      var c := parts[0][0];
      var shorter := [parts[0][1..]] + parts[1..];
      assert sep !in parts[0][1..];
      SplitJoin(shorter, sep);
      if |parts| == 1 {
        assert s == [c] + Join(shorter, sep);
      } else {
        assert shorter[1..] == parts[1..];
        assert s == [c] + Join(shorter, sep);
      }
      assert s[1..] == Join(shorter, sep);
      assert s[0] == c && c != sep;
      assert [c] + shorter[0] == parts[0];
      assert [[c] + shorter[0]] + shorter[1..] == parts;
    }
  }

  /** The first piece of a split is a prefix of the string, followed by the
      separator unless it is the whole string. */
  lemma {:induction false} SplitFirstIsPrefix(s: string, sep: char)
    ensures var p := Split(s, sep)[0];
      |p| <= |s| && s[..|p|] == p && (|p| < |s| ==> s[|p|] == sep)
  {
    if s != [] {
      SplitFirstIsPrefix(s[1..], sep);
    }
  }

  /** The last piece of a split is a suffix of the string, preceded by the
      separator unless it is the whole string. */
  lemma {:induction false} SplitLastIsSuffix(s: string, sep: char)
    ensures var parts := Split(s, sep); var p := parts[|parts| - 1];
      |p| <= |s| && s[|s| - |p|..] == p && (|p| < |s| ==> s[|s| - |p| - 1] == sep)
      && (|parts| == 1 ==> p == s) && (|parts| > 1 ==> |p| < |s|)
  {
    if s != [] {
      var t := s[1..];
      SplitLastIsSuffix(t, sep);
      var rest := Split(t, sep);
      var q := rest[|rest| - 1];
      assert t[|t| - |q|..] == s[|s| - |q|..];
      if s[0] == sep {
        assert Split(s, sep)[|Split(s, sep)| - 1] == q;
        if |q| < |t| {
          assert s[|s| - |q| - 1] == t[|t| - |q| - 1];
        }
      } else if |rest| > 1 {
        assert Split(s, sep)[|Split(s, sep)| - 1] == q;
        assert s[|s| - |q| - 1] == t[|t| - |q| - 1];
      } else {
        assert [s[0]] + t == s;
      }
    }
  }

  lemma {:induction false} SplitCount(s: string, sep: char)
    ensures |Split(s, sep)| == Count(s, sep) + 1
  {
    if s != [] {
      SplitCount(s[1..], sep);
    }
  }

  /** `s.replace(/<from>/g, <to>)` for one-character patterns. */
  function ReplaceChar(s: string, from: char, to: char): (r: string)
    ensures |r| == |s|
    ensures forall i :: 0 <= i < |s| ==> r[i] == (if s[i] == from then to else s[i])
  {
    if s == [] then ""
    else [if s[0] == from then to else s[0]] + ReplaceChar(s[1..], from, to)
  }
}
