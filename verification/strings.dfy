/**
 * The JavaScript string built-ins the web app relies on: `trim`, `split` on a
 * separator character or on runs of `\s`, ASCII `toLowerCase`/`toUpperCase`,
 * `startsWith` and `includes`.
 */
module Strings {
  import opened Wrappers
  import opened Seqs

  /**
   * ECMAScript WhiteSpace and LineTerminator code points: what `trim` strips
   * and what the regular-expression class `\s` matches.
   */
  predicate IsSpace(c: char) {
    c in SpaceChars
  }

  const SpaceChars: set<char> := {
    '\t', '\n', '\U{000B}', '\U{000C}', '\r', ' ', '\U{00A0}', '\U{1680}',
    '\U{2000}', '\U{2001}', '\U{2002}', '\U{2003}', '\U{2004}', '\U{2005}',
    '\U{2006}', '\U{2007}', '\U{2008}', '\U{2009}', '\U{200A}',
    '\U{2028}', '\U{2029}', '\U{202F}', '\U{205F}', '\U{3000}', '\U{FEFF}'
  }

  predicate AllSpace(s: string) {
    forall i :: 0 <= i < |s| ==> IsSpace(s[i])
  }

  predicate NoSpace(s: string) {
    forall i :: 0 <= i < |s| ==> !IsSpace(s[i])
  }

  /** Number of leading whitespace characters. */
  function LeadingSpaces(s: string): (n: nat)
    ensures n <= |s|
    ensures forall i :: 0 <= i < n ==> IsSpace(s[i])
    ensures n < |s| ==> !IsSpace(s[n])
  {
    if |s| > 0 && IsSpace(s[0]) then 1 + LeadingSpaces(s[1..]) else 0
  }

  /** Number of trailing whitespace characters. */
  function TrailingSpaces(s: string): (n: nat)
    ensures n <= |s|
    ensures forall i :: |s| - n <= i < |s| ==> IsSpace(s[i])
    ensures n < |s| ==> !IsSpace(s[|s| - 1 - n])
  {
    if |s| > 0 && IsSpace(s[|s| - 1]) then 1 + TrailingSpaces(s[..|s| - 1]) else 0
  }

  /** `String.prototype.trim`. */
  function Trim(s: string): (r: string)
    ensures |r| <= |s|
    ensures r == [] <==> AllSpace(s)
    ensures r == [] || (!IsSpace(r[0]) && !IsSpace(r[|r| - 1]))
  {
    var n := LeadingSpaces(s);
    if n == |s| then []
    else
      var m := TrailingSpaces(s);
      assert n < |s| - m;
      s[n..|s| - m]
  }

  /** Stripping whitespace removes exactly a whitespace prefix and a whitespace suffix. */
  lemma TrimSplitsOffPadding(s: string) returns (lead: string, trail: string)
    ensures s == lead + Trim(s) + trail
    ensures AllSpace(lead) && AllSpace(trail)
  {
    var n := LeadingSpaces(s);
    if n == |s| {
      lead, trail := s, [];
      assert Trim(s) == [];
      assert s == lead + [] + [];
    } else {
      var m := TrailingSpaces(s);
      lead, trail := s[..n], s[|s| - m..];
      assert Trim(s) == s[n..|s| - m];
      assert forall i :: 0 <= i < |lead| ==> lead[i] == s[i];
      assert forall i :: 0 <= i < |trail| ==> trail[i] == s[|s| - m + i];
      assert s == s[..n] + s[n..|s| - m] + s[|s| - m..];
    }
  }

  lemma {:induction false} LeadingSpacesOfPadded(lead: string, t: string)
    requires AllSpace(lead) && t != [] && !IsSpace(t[0])
    ensures LeadingSpaces(lead + t) == |lead|
  {
    if lead != [] {
      assert (lead + t)[0] == lead[0];
      assert (lead + t)[1..] == lead[1..] + t;
      LeadingSpacesOfPadded(lead[1..], t);
    } else {
      assert lead + t == t;
    }
  }

  lemma {:induction false} TrailingSpacesOfPadded(t: string, trail: string)
    requires AllSpace(trail) && t != [] && !IsSpace(t[|t| - 1])
    ensures TrailingSpaces(t + trail) == |trail|
  {
    if trail != [] {
      var u := t + trail;
      assert u[|u| - 1] == trail[|trail| - 1];
      assert u[..|u| - 1] == t + trail[..|trail| - 1];
      TrailingSpacesOfPadded(t, trail[..|trail| - 1]);
    } else {
      assert t + trail == t;
    }
  }

  /** Conversely, whitespace padding around text with non-space ends is exactly what trimming strips. */
  lemma TrimOfPadded(lead: string, t: string, trail: string)
    requires AllSpace(lead) && AllSpace(trail)
    requires t != [] && !IsSpace(t[0]) && !IsSpace(t[|t| - 1])
    ensures Trim(lead + t + trail) == t
  {
    var s := lead + t + trail;
    assert lead + t + trail == lead + (t + trail);
    assert (t + trail)[0] == t[0];
    LeadingSpacesOfPadded(lead, t + trail);
    assert (lead + t)[|lead + t| - 1] == t[|t| - 1];
    TrailingSpacesOfPadded(lead + t, trail);
    assert s[|lead|..|s| - |trail|] == t;
  }

  /** Printable ASCII other than the space is not whitespace. */
  lemma GraphicIsNotSpace(c: char)
    requires '!' <= c <= '~'
    ensures !IsSpace(c)
  {
  }

  lemma TrimIdempotent(s: string)
    ensures Trim(Trim(s)) == Trim(s)
  {
    var r := Trim(s);
    if r != [] {
      assert LeadingSpaces(r) == 0;
      assert TrailingSpaces(r) == 0;
      assert r[0..|r|] == r;
    }
  }

  /** Every character that survives trimming was in the input. */
  lemma TrimKeepsCharacters(s: string, c: char)
    requires c in Trim(s)
    ensures c in s
  {
    var lead, trail := TrimSplitsOffPadding(s);
  }

  /** ASCII `toLowerCase` of one character. */
  function LowerChar(c: char): char {
    if 'A' <= c <= 'Z' then (c as int - 'A' as int + 'a' as int) as char else c
  }

  /** ASCII `toUpperCase` of one character. */
  function UpperChar(c: char): char {
    if 'a' <= c <= 'z' then (c as int - 'a' as int + 'A' as int) as char else c
  }

  /** ASCII `toLowerCase`. */
  function ToLower(s: string): (r: string)
    ensures |r| == |s|
    ensures forall i :: 0 <= i < |s| ==> r[i] == LowerChar(s[i])
  {
    seq(|s|, i requires 0 <= i < |s| => LowerChar(s[i]))
  }

  /** `String.prototype.startsWith`. */
  predicate StartsWith(s: string, prefix: string) {
    |prefix| <= |s| && s[..|prefix|] == prefix
  }

  /** `String.prototype.includes`: `sub` occurs somewhere in `s`. */
  predicate Contains(s: string, sub: string)
    decreases |s|
  {
    StartsWith(s, sub) || (s != [] && Contains(s[1..], sub))
  }

  /** Every character of a contained string occurs in the container. */
  lemma {:induction false} ContainsChar(s: string, sub: string, c: char)
    requires Contains(s, sub) && c in sub
    ensures c in s
    decreases |s|
  {
    if StartsWith(s, sub) {
      assert c in s[..|sub|];
    } else {
      ContainsChar(s[1..], sub, c);
    }
  }

  /** `sub` occurs in `s` at offset `i`. */
  predicate OccursAt(s: string, sub: string, i: int) {
    0 <= i <= |s| - |sub| && s[i..i + |sub|] == sub
  }

  /** `Contains` finds `sub` exactly when it occurs at some offset. */
  lemma {:induction false} ContainsIff(s: string, sub: string)
    ensures Contains(s, sub) <==> exists i :: OccursAt(s, sub, i)
    decreases |s|
  {
    if StartsWith(s, sub) {
      assert OccursAt(s, sub, 0);
    }
    if s != [] {
      ContainsIff(s[1..], sub);
      if Contains(s[1..], sub) {
        var i :| OccursAt(s[1..], sub, i);
        assert s[i + 1..i + 1 + |sub|] == s[1..][i..i + |sub|];
        assert OccursAt(s, sub, i + 1);
      }
      if i :| OccursAt(s, sub, i) {
        if i > 0 {
          assert s[1..][i - 1..i - 1 + |sub|] == s[i..i + |sub|];
          assert OccursAt(s[1..], sub, i - 1);
        }
      }
    }
  }

  // ---------------------------------------------------------------- split(',')

  /** `s.split(sep)` for a one-character separator: `"".split(",")` is `[""]`. */
  function SplitOn(s: string, sep: char): (parts: seq<string>)
    ensures |parts| >= 1
    ensures forall i :: 0 <= i < |parts| ==> sep !in parts[i]
    decreases |s|
  {
    if s == [] then [[]]
    else if s[0] == sep then [[]] + SplitOn(s[1..], sep)
    else
      var rest := SplitOn(s[1..], sep);
      [[s[0]] + rest[0]] + rest[1..]
  }

  /** `parts.join(sep)`. */
  function Join(parts: seq<string>, sep: char): string {
    if parts == [] then []
    else if |parts| == 1 then parts[0]
    else parts[0] + [sep] + Join(parts[1..], sep)
  }

  /** Splitting loses nothing: joining the pieces back gives the input. */
  lemma {:induction false} JoinSplit(s: string, sep: char)
    ensures Join(SplitOn(s, sep), sep) == s
    decreases |s|
  {
    if s != [] {
      JoinSplit(s[1..], sep);
      var rest := SplitOn(s[1..], sep);
      if s[0] == sep {
        assert SplitOn(s, sep) == [[]] + rest;
        assert ([[]] + rest)[1..] == rest;
      } else {
        var parts := [[s[0]] + rest[0]] + rest[1..];
        assert SplitOn(s, sep) == parts;
        if |rest| == 1 {
          assert Join(rest, sep) == rest[0];
        } else {
          assert parts[1..] == rest[1..];
          assert Join(rest, sep) == rest[0] + [sep] + Join(rest[1..], sep);
        }
      }
    }
  }

  /** A separator splits the string into the pieces of either side. */
  lemma {:induction false} SplitAtSeparator(a: string, b: string, sep: char)
    ensures SplitOn(a + [sep] + b, sep) == SplitOn(a, sep) + SplitOn(b, sep)
    decreases |a|
  {
    var s := a + [sep] + b;
    var r2 := SplitOn(b, sep);
    if a == [] {
      assert s[1..] == b;
      assert SplitOn(s, sep) == [[]] + r2;
    } else {
      assert s[0] == a[0];
      assert s[1..] == a[1..] + [sep] + b;
      SplitAtSeparator(a[1..], b, sep);
      var r1 := SplitOn(a[1..], sep);
      var rest := SplitOn(s[1..], sep);
      assert rest == r1 + r2;
      if a[0] == sep {
        assert SplitOn(s, sep) == [[]] + rest;
        assert SplitOn(a, sep) == [[]] + r1;
      } else {
        assert SplitOn(s, sep) == [[a[0]] + rest[0]] + rest[1..];
        assert rest[0] == r1[0];
        assert rest[1..] == r1[1..] + r2;
        assert SplitOn(a, sep) == [[a[0]] + r1[0]] + r1[1..];
      }
    }
  }

  lemma {:induction false} SplitWithoutSeparator(s: string, sep: char)
    requires sep !in s
    ensures SplitOn(s, sep) == [s]
    decreases |s|
  {
    if s != [] {
      assert sep !in s[1..];
      SplitWithoutSeparator(s[1..], sep);
      assert [s[0]] + s[1..] == s;
    }
  }

  /** Each piece trimmed, with the pieces that trim to nothing dropped. */
  function TrimmedPieces(parts: seq<string>): (r: seq<string>)
    ensures forall i :: 0 <= i < |r| ==> r[i] != [] && Trim(r[i]) == r[i]
    ensures forall c, i :: 0 <= i < |r| && c in r[i] ==> exists k :: 0 <= k < |parts| && c in parts[k]
  {
    if parts == [] then []
    else
      var t := Trim(parts[0]);
      var rest := TrimmedPieces(parts[1..]);
      TrimIdempotent(parts[0]);
      assert forall c :: c in t ==> c in parts[0] by {
        forall c | c in t
          ensures c in parts[0]
        {
          TrimKeepsCharacters(parts[0], c);
        }
      }
      if t == [] then rest else [t] + rest
  }

  lemma {:induction false} TrimmedPiecesAppend(a: seq<string>, b: seq<string>)
    ensures TrimmedPieces(a + b) == TrimmedPieces(a) + TrimmedPieces(b)
  {
    if a == [] {
      assert a + b == b;
    } else {
      assert (a + b)[0] == a[0];
      assert (a + b)[1..] == a[1..] + b;
      TrimmedPiecesAppend(a[1..], b);
    }
  }

  /**
   * A comma-separated configuration or query value as a list: nothing for a
   * nullish or empty value, otherwise the trimmed non-empty pieces in order.
   */
  function CommaList(value: Option<string>): (r: seq<string>)
    ensures value.None? || value.value == [] ==> r == []
    ensures forall i :: 0 <= i < |r| ==> r[i] != [] && Trim(r[i]) == r[i] && ',' !in r[i]
  {
    if value.None? || value.value == [] then [] else TrimmedPieces(SplitOn(value.value, ','))
  }

  /** A value without commas contributes its trimmed self, unless that is empty. */
  lemma CommaListOfOnePiece(s: string)
    requires ',' !in s
    ensures CommaList(Some(s)) == if Trim(s) == [] then [] else [Trim(s)]
  {
    SplitWithoutSeparator(s, ',');
    assert [s][0] == s && [s][1..] == [];
    assert TrimmedPieces([s]) == (if Trim(s) == [] then [] else [Trim(s)]) + TrimmedPieces([]);
  }

  /** The pieces on either side of a comma come out in order, left before right. */
  lemma CommaListAtComma(a: string, b: string)
    ensures CommaList(Some(a + [','] + b)) == CommaList(Some(a)) + CommaList(Some(b))
  {
    SplitAtSeparator(a, b, ',');
    TrimmedPiecesAppend(SplitOn(a, ','), SplitOn(b, ','));
    assert TrimmedPieces(SplitOn([], ',')) == [];
  }

  // ------------------------------------------------------------ split(/\s+/)

  /** Length of the longest whitespace-free prefix. */
  function WordEnd(s: string): (n: nat)
    ensures n <= |s|
    ensures NoSpace(s[..n])
    ensures n == |s| || IsSpace(s[n])
  {
    if |s| == 0 || IsSpace(s[0]) then 0 else 1 + WordEnd(s[1..])
  }

  /**
   * The maximal runs of non-whitespace characters, in order: what
   * `s.trim().split(/\s+/).filter(Boolean)` yields.
   */
  function Words(s: string): (ws: seq<string>)
    ensures forall i :: 0 <= i < |ws| ==> ws[i] != [] && NoSpace(ws[i])
    ensures ws == [] <==> AllSpace(s)
    decreases |s|
  {
    if s == [] then []
    else if IsSpace(s[0]) then
      assert AllSpace(s) <==> AllSpace(s[1..]) by {
        assert forall i :: 0 < i < |s| ==> s[i] == s[1..][i - 1];
      }
      Words(s[1..])
    else
      var n := WordEnd(s);
      [s[..n]] + Words(s[n..])
  }

  lemma {:induction false} WordEndOfAppend(a: string, t: string)
    requires t == [] || IsSpace(t[0])
    ensures WordEnd(a + t) == WordEnd(a)
    decreases |a|
  {
    if a == [] {
      assert a + t == t;
    } else if !IsSpace(a[0]) {
      assert (a + t)[1..] == a[1..] + t;
      WordEndOfAppend(a[1..], t);
    }
  }

  lemma {:induction false} WordsSkipSpace(w: string, b: string)
    requires AllSpace(w)
    ensures Words(w + b) == Words(b)
    decreases |w|
  {
    if w != [] {
      assert (w + b)[1..] == w[1..] + b;
      WordsSkipSpace(w[1..], b);
    } else {
      assert w + b == b;
    }
  }

  /** A non-empty run of whitespace separates the words of either side. */
  lemma {:induction false} WordsAcrossGap(a: string, w: string, b: string)
    requires w != [] && AllSpace(w)
    ensures Words(a + w + b) == Words(a) + Words(b)
    decreases |a|
  {
    var s := a + w + b;
    if a == [] {
      assert s == w + b;
      WordsSkipSpace(w, b);
    } else if IsSpace(a[0]) {
      assert s[0] == a[0];
      assert s[1..] == a[1..] + w + b;
      WordsAcrossGap(a[1..], w, b);
    } else {
      assert s[0] == a[0];
      WordEndOfAppend(a, w + b);
      assert s == a + (w + b);
      var k := WordEnd(a);
      assert s[..k] == a[..k];
      assert s[k..] == a[k..] + w + b;
      if k == |a| {
        assert a[k..] + w + b == w + b;
        WordsSkipSpace(w, b);
        assert a[k..] == [];
        assert a[..k] == a;
      } else {
        WordsAcrossGap(a[k..], w, b);
      }
    }
  }

  /** A whitespace-free non-empty string is one word. */
  lemma WordsOfWord(s: string)
    requires s != [] && NoSpace(s)
    ensures Words(s) == [s]
  {
    WordEndOfAppend(s, []);
    assert s + [] == s;
    WordEndWholeWord(s);
  }

  lemma {:induction false} WordEndWholeWord(s: string)
    requires NoSpace(s)
    ensures WordEnd(s) == |s|
  {
    if s != [] {
      assert NoSpace(s[1..]) by {
        assert forall i :: 0 <= i < |s| - 1 ==> s[1..][i] == s[i + 1];
      }
      WordEndWholeWord(s[1..]);
    }
  }

  /** A word followed by whitespace (or nothing) is the first word. */
  lemma FirstWord(word: string, rest: string)
    requires word != [] && NoSpace(word)
    requires rest == [] || IsSpace(rest[0])
    ensures Words(word + rest) == [word] + Words(rest)
  {
    var s := word + rest;
    assert s[0] == word[0];
    WordEndOfAppend(word, rest);
    WordEndWholeWord(word);
    assert s[..|word|] == word;
    assert s[|word|..] == rest;
  }

  /** Trimming first does not change the words. */
  lemma WordsOfTrim(s: string)
    ensures Words(Trim(s)) == Words(s)
  {
    var lead, trail := TrimSplitsOffPadding(s);
    var r := Trim(s);
    assert s == lead + (r + trail);
    WordsSkipSpace(lead, r + trail);
    WordsSkipTrailingSpace(r, trail);
  }

  lemma WordsSkipTrailingSpace(a: string, w: string)
    requires AllSpace(w)
    ensures Words(a + w) == Words(a)
  {
    if w != [] {
      WordsAcrossGap(a, w, []);
      assert a + w + [] == a + w;
    } else {
      assert a + w == a;
    }
  }
}
