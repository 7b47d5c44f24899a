/** The Python `str` operations the client relies on, with CPython's semantics:
    `strip()`, `split()`, `split(None, n)`, `split(sep)`, `splitlines()`,
    `find()`, clamped slicing, `upper()` (ASCII letters only), `int()` and
    `str()`/`oct()` of integers. */
module PyStr {
  import opened Types

  // ---------------------------------------------------------------------------
  // Character classes

  /** `c.isspace()`: the characters `strip()` and `split()` treat as whitespace. */
  predicate IsSpace(c: char)
  {
    c == ' ' || ('\t' <= c <= '\r') || ('\U{1C}' <= c <= '\U{1F}') || c == '\U{85}'
    || c == '\U{A0}' || c == '\U{1680}' || ('\U{2000}' <= c <= '\U{200A}')
    || c == '\U{2028}' || c == '\U{2029}' || c == '\U{202F}' || c == '\U{205F}'
    || c == '\U{3000}'
  }

  /** The line boundaries of `splitlines()` (`\r\n` counts as one boundary). */
  predicate IsLineBreak(c: char)
  {
    ('\n' <= c <= '\r') || ('\U{1C}' <= c <= '\U{1E}') || c == '\U{85}'
    || c == '\U{2028}' || c == '\U{2029}'
  }

  predicate AllSpace(s: string) { forall i :: 0 <= i < |s| ==> IsSpace(s[i]) }

  predicate NoSpace(s: string) { forall i :: 0 <= i < |s| ==> !IsSpace(s[i]) }

  predicate NoLineBreak(s: string) { forall i :: 0 <= i < |s| ==> !IsLineBreak(s[i]) }

  /** A non-empty run of non-whitespace characters: what `split()` yields. */
  predicate IsWord(s: string) { s != [] && NoSpace(s) }

  /** Neither end of `s` is whitespace, so `strip()` leaves it alone. */
  predicate Trimmed(s: string) { s == [] || (!IsSpace(s[0]) && !IsSpace(s[|s| - 1])) }

  lemma LineBreakIsSpace(c: char)
    ensures IsLineBreak(c) ==> IsSpace(c)
  {
  }

  // ---------------------------------------------------------------------------
  // strip()

  /** Number of whitespace characters `s` starts with. */
  function LeadingSpaces(s: string): (n: nat)
    ensures n <= |s| && AllSpace(s[..n]) && (n < |s| ==> !IsSpace(s[n]))
  {
    if s == [] || !IsSpace(s[0]) then 0
    else
      var n := LeadingSpaces(s[1..]);
      assert s[..n + 1] == [s[0]] + s[1..][..n];
      1 + n
  }

  /** Where the whitespace `s` ends with begins. */
  function TrailingStart(s: string): (n: nat)
    ensures n <= |s| && AllSpace(s[n..]) && (n > 0 ==> !IsSpace(s[n - 1]))
  {
    if s == [] || !IsSpace(s[|s| - 1]) then |s|
    else
      var n := TrailingStart(s[..|s| - 1]);
      assert s[n..] == s[..|s| - 1][n..] + [s[|s| - 1]];
      n
  }

  /** `s.lstrip()`. */
  function TrimLeft(s: string): (r: string)
    ensures r == [] || !IsSpace(r[0])
  {
    s[LeadingSpaces(s)..]
  }

  /** `s.strip()`: `s` without its leading and trailing whitespace. */
  function Strip(s: string): (r: string)
    ensures Trimmed(r) && |r| <= |s|
    decreases |s|
  {
    if s != [] && IsSpace(s[0]) then Strip(s[1..])
    else if s != [] && IsSpace(s[|s| - 1]) then Strip(s[..|s| - 1])
    else s
  }

  /** The stripped text is the slice of `s` after its leading whitespace,
      and only whitespace follows it. */
  predicate StripSlices(s: string)
  {
    var k := LeadingSpaces(s); var r := Strip(s);
    k + |r| <= |s| && r == s[k..k + |r|] && AllSpace(s[k + |r|..])
  }

  lemma {:induction false} StripIsSlice(s: string)
    ensures StripSlices(s)
    decreases |s|
  {
    if s != [] && IsSpace(s[0]) {
      StripIsSlice(s[1..]);
      StripSlicesLeading(s);
    } else if s != [] && IsSpace(s[|s| - 1]) {
      StripIsSlice(s[..|s| - 1]);
      StripSlicesTrailing(s);
    }
  }

  lemma StripSlicesLeading(s: string)
    requires s != [] && IsSpace(s[0]) && StripSlices(s[1..])
    ensures StripSlices(s)
  {
    var k := LeadingSpaces(s[1..]);
    var r := Strip(s);
    assert LeadingSpaces(s) == k + 1 && r == Strip(s[1..]);
    assert s[1..][k..k + |r|] == s[k + 1..k + 1 + |r|];
    assert s[1..][k + |r|..] == s[k + 1 + |r|..];
  }

  lemma StripSlicesTrailing(s: string)
    requires s != [] && !IsSpace(s[0]) && IsSpace(s[|s| - 1]) && StripSlices(s[..|s| - 1])
    ensures StripSlices(s)
  {
    var t := s[..|s| - 1];
    assert t != [] && t[0] == s[0];
    var r := Strip(s);
    assert LeadingSpaces(s) == 0 && LeadingSpaces(t) == 0 && r == Strip(t);
    assert t[0..|r|] == s[0..|r|];
    assert s[|r|..] == t[|r|..] + [s[|s| - 1]];
  }

  /** Only a blank string strips to nothing. */
  lemma {:induction false} StripEmpty(s: string)
    ensures Strip(s) == [] <==> AllSpace(s)
    decreases |s|
  {
    if s != [] && IsSpace(s[0]) {
      StripEmpty(s[1..]);
      assert AllSpace(s) <==> AllSpace(s[1..]) by {
        if AllSpace(s[1..]) {
          forall i | 0 <= i < |s| ensures IsSpace(s[i]) {
            if i > 0 { assert s[i] == s[1..][i - 1]; }
          }
        }
      }
    } else if s != [] && IsSpace(s[|s| - 1]) {
      var t := s[..|s| - 1];
      assert t != [] && t[0] == s[0];
      StripEmpty(t);
    }
  }

  lemma {:induction false} StripTrimmed(s: string)
    requires Trimmed(s)
    ensures Strip(s) == s
  {
  }

  lemma {:induction false} StripIdempotent(s: string)
    ensures Strip(Strip(s)) == Strip(s)
  {
    StripTrimmed(Strip(s));
  }

  lemma AllSpaceBetween(s: string, a: nat, b: nat)
    requires a <= b <= |s| && AllSpace(s[a..b])
    ensures forall j :: a <= j < b ==> IsSpace(s[j])
  {
    forall j | a <= j < b ensures IsSpace(s[j]) { assert s[j] == s[a..b][j - a]; }
  }

  /** When only whitespace follows the character before `e`, `strip()` ends
      the text at `e`. */
  lemma StripEndsAt(s: string, e: nat)
    requires 0 < e <= |s| && !IsSpace(s[e - 1]) && AllSpace(s[e..])
    ensures LeadingSpaces(s) < e && Strip(s) == s[LeadingSpaces(s)..e]
  {
    StripIsSlice(s);
    var k := LeadingSpaces(s);
    var r := Strip(s);
    StripEndsAtBounds(s, e, k, r);
  }

  lemma StripEndsAtBounds(s: string, e: nat, k: nat, r: string)
    requires 0 < e <= |s| && !IsSpace(s[e - 1]) && AllSpace(s[e..])
    requires k + |r| <= |s| && AllSpace(s[..k]) && AllSpace(s[k + |r|..])
    requires r == s[k..k + |r|] && Trimmed(r)
    ensures k < e && k + |r| == e
  {
    assert s[..k] == s[0..k];
    NonSpaceOutside(s, 0, k, e - 1);
    NonSpaceOutside(s, k + |r|, |s|, e - 1);
    assert r != [] && r[|r| - 1] == s[k + |r| - 1];
    NonSpaceOutside(s, e, |s|, k + |r| - 1);
  }

  /** A non-space character lies outside any run of whitespace. */
  lemma NonSpaceOutside(s: string, a: nat, b: nat, i: nat)
    requires a <= b <= |s| && AllSpace(s[a..b])
    requires i < |s| && !IsSpace(s[i])
    ensures i < a || b <= i
  {
    AllSpaceBetween(s, a, b);
  }

  /** `n` blanks. */
  function Spaces(n: nat): (r: string)
    ensures |r| == n && AllSpace(r)
  {
    if n == 0 then [] else [' '] + Spaces(n - 1)
  }

  /** Stripping a trimmed text padded with whitespace gives the text back. */
  lemma {:induction false} StripPadded(s: string, pad: string)
    requires Trimmed(s) && AllSpace(pad)
    ensures Strip(s + pad) == s
    decreases |pad|
  {
    var t := s + pad;
    if s == [] {
      assert t == pad;
      StripEmpty(t);
    } else if pad == [] {
      assert t == s;
      StripTrimmed(s);
    } else {
      var shorter := pad[..|pad| - 1];
      assert t[0] == s[0] && t[|t| - 1] == pad[|pad| - 1];
      assert t[..|t| - 1] == s + shorter;
      StripPadded(s, shorter);
    }
  }

  // ---------------------------------------------------------------------------
  // split() and split(None, maxsplit)

  /** Length of the leading run of non-whitespace characters. */
  function WordEnd(s: string): (n: nat)
    ensures n <= |s| && NoSpace(s[..n]) && (n < |s| ==> IsSpace(s[n]))
  {
    if s == [] || IsSpace(s[0]) then 0
    else
      var n := WordEnd(s[1..]);
      assert s[..n + 1] == [s[0]] + s[1..][..n];
      1 + n
  }

  /** `s.split()`: the maximal runs of non-whitespace characters, in order. */
  function Words(s: string): (r: seq<string>)
    ensures forall w :: w in r ==> IsWord(w)
    decreases |s|
  {
    var t := TrimLeft(s);
    if t == [] then []
    else
      var n := WordEnd(t);
      [t[..n]] + Words(t[n..])
  }

  /** `s.split(None, maxsplit)`: at most `maxsplit` splits; the remainder keeps
      its trailing whitespace but not its leading whitespace. */
  function SplitMax(s: string, maxsplit: nat): (r: seq<string>)
    ensures |r| <= maxsplit + 1
    ensures forall i :: 0 <= i < |r| ==> r[i] != [] && !IsSpace(r[i][0])
    ensures forall i :: 0 <= i < |r| && i < maxsplit ==> NoSpace(r[i])
    decreases |s|
  {
    var t := TrimLeft(s);
    if t == [] then []
    else if maxsplit == 0 then [t]
    else
      var n := WordEnd(t);
      [t[..n]] + SplitMax(t[n..], maxsplit - 1)
  }

  /** Concatenation of `parts` with `sep` between consecutive parts (`sep.join(parts)`). */
  function Join(parts: seq<string>, sep: string): string
  {
    if parts == [] then []
    else if |parts| == 1 then parts[0]
    else parts[0] + sep + Join(parts[1..], sep)
  }

  /** The ends of a join are the ends of its first and last parts. */
  lemma {:induction false} JoinEnds(parts: seq<string>, sep: string)
    requires |parts| >= 1 && forall i :: 0 <= i < |parts| ==> parts[i] != []
    ensures var j := Join(parts, sep);
      j != [] && j[0] == parts[0][0] && j[|j| - 1] == parts[|parts| - 1][|parts[|parts| - 1]| - 1]
    decreases |parts|
  {
    if |parts| > 1 {
      JoinEnds(parts[1..], sep);
    }
  }

  /** Joining texts and a separator free of line boundaries gives one line. */
  lemma {:induction false} JoinNoLineBreak(parts: seq<string>, sep: string)
    requires NoLineBreak(sep) && forall p :: p in parts ==> NoLineBreak(p)
    ensures NoLineBreak(Join(parts, sep))
    decreases |parts|
  {
    if |parts| > 1 {
      assert forall p :: p in parts[1..] ==> p in parts;
      JoinNoLineBreak(parts[1..], sep);
      assert parts[0] in parts;
      var j := Join(parts, sep);
      var a, b := parts[0] + sep, Join(parts[1..], sep);
      assert j == a + b;
      forall i | 0 <= i < |j| ensures !IsLineBreak(j[i]) {
        if i < |parts[0]| { assert j[i] == parts[0][i]; }
        else if i < |a| { assert j[i] == sep[i - |parts[0]|]; }
        else { assert j[i] == b[i - |a|]; }
      }
    } else if |parts| == 1 {
      assert parts[0] in parts;
    }
  }

  /** A character in neither the parts nor the separator is not in their join. */
  lemma {:induction false} JoinWithout(parts: seq<string>, sep: string, c: char)
    requires c !in sep && forall p :: p in parts ==> c !in p
    ensures c !in Join(parts, sep)
    decreases |parts|
  {
    if |parts| > 1 {
      assert parts[0] in parts;
      assert forall p :: p in parts[1..] ==> p in parts;
      JoinWithout(parts[1..], sep, c);
    } else if |parts| == 1 {
      assert parts[0] in parts;
    }
  }

  /** Joining two last parts with the separator is the same as keeping them apart. */
  lemma {:induction false} JoinMergeLast(parts: seq<string>, a: string, b: string)
    ensures Join(parts + [a, b], " ") == Join(parts + [a + " " + b], " ")
    decreases |parts|
  {
    if parts == [] {
      assert [] + [a, b] == [a, b];
      assert [] + [a + " " + b] == [a + " " + b];
      assert [a, b][1..] == [b];
    } else {
      JoinMergeLast(parts[1..], a, b);
      assert (parts + [a, b])[1..] == parts[1..] + [a, b];
      assert (parts + [a + " " + b])[1..] == parts[1..] + [a + " " + b];
    }
  }

  /** A word has no line boundary. */
  lemma WordNoLineBreak(w: string)
    requires NoSpace(w)
    ensures NoLineBreak(w) && '\n' !in w
  {
    forall i | 0 <= i < |w| ensures !IsLineBreak(w[i]) {
      LineBreakIsSpace(w[i]);
    }
  }

  /** Words joined by single blanks: one trimmed line that `split()` takes
      apart again. */
  lemma {:induction false} WordLine(ws: seq<string>)
    requires |ws| >= 1 && forall w :: w in ws ==> IsWord(w)
    ensures var line := Join(ws, " ");
      && Words(line) == ws
      && line != [] && !IsSpace(line[0]) && !IsSpace(line[|line| - 1])
      && NoLineBreak(line) && '\n' !in line
  {
    WordsOfJoin(ws);
    assert forall i :: 0 <= i < |ws| ==> ws[i] in ws;
    JoinEnds(ws, " ");
    assert ws[0] in ws && ws[|ws| - 1] in ws;
    forall w | w in ws ensures NoLineBreak(w) { WordNoLineBreak(w); }
    JoinNoLineBreak(ws, " ");
  }

  /** `split()` of a blank text yields nothing. */
  lemma WordsOfBlank(s: string)
    requires Strip(s) == []
    ensures Words(s) == []
  {
    StripEmpty(s);
    assert LeadingSpaces(s) == |s|;
  }

  /** A string that starts with a word runs on to the word's end. */
  lemma {:induction false} WordEndOfWordThenSpace(w: string, rest: string)
    requires IsWord(w)
    requires rest == [] || IsSpace(rest[0])
    ensures WordEnd(w + rest) == |w|
    decreases |w|
  {
    assert (w + rest)[0] == w[0];
    if |w| > 1 {
      assert (w + rest)[1..] == w[1..] + rest;
      WordEndOfWordThenSpace(w[1..], rest);
    } else {
      assert (w + rest)[1..] == rest;
    }
  }

  lemma {:induction false} TrimLeftSpaces(sp: string, rest: string)
    requires AllSpace(sp)
    requires rest == [] || !IsSpace(rest[0])
    ensures TrimLeft(sp + rest) == rest
    decreases |sp|
  {
    if sp == [] {
      assert sp + rest == rest;
    } else {
      assert (sp + rest)[1..] == sp[1..] + rest;
      TrimLeftSpaces(sp[1..], rest);
    }
  }

  lemma {:induction false} JoinHead(parts: seq<string>, sep: string)
    requires |parts| >= 1
    ensures Join(parts, sep) == parts[0] + (if |parts| == 1 then [] else sep + Join(parts[1..], sep))
  {
  }

  /** A word followed by nothing or by whitespace is the first thing `split()` yields. */
  lemma {:induction false} WordsCons(w: string, tail: string)
    requires IsWord(w)
    requires tail == [] || IsSpace(tail[0])
    ensures Words(w + tail) == [w] + Words(tail)
  {
    var s := w + tail;
    assert s[0] == w[0];
    TrimLeftSpaces([], s);
    assert [] + s == s;
    WordEndOfWordThenSpace(w, tail);
    assert s[..|w|] == w;
    assert s[|w|..] == tail;
  }

  lemma {:induction false} SplitMaxCons(w: string, tail: string, maxsplit: nat)
    requires IsWord(w)
    requires tail == [] || IsSpace(tail[0])
    ensures SplitMax(w + tail, maxsplit + 1) == [w] + SplitMax(tail, maxsplit)
  {
    var s := w + tail;
    assert s[0] == w[0];
    TrimLeftSpaces([], s);
    assert [] + s == s;
    WordEndOfWordThenSpace(w, tail);
    assert s[..|w|] == w;
    assert s[|w|..] == tail;
  }

  lemma {:induction false} SplitMaxConsAt(w: string, tail: string, maxsplit: nat)
    requires IsWord(w) && maxsplit >= 1
    requires tail == [] || IsSpace(tail[0])
    ensures SplitMax(w + tail, maxsplit) == [w] + SplitMax(tail, maxsplit - 1)
  {
    var s := w + tail;
    assert s[0] == w[0];
    TrimLeftSpaces([], s);
    assert [] + s == s;
    WordEndOfWordThenSpace(w, tail);
    assert s[..|w|] == w;
    assert s[|w|..] == tail;
  }

  /** The head of a join of words is a word again, so what follows a separating
      space starts with a non-space character. */
  lemma {:induction false} JoinStartsWithWord(ws: seq<string>)
    requires |ws| >= 1
    requires forall w :: w in ws ==> w != [] && !IsSpace(w[0])
    ensures Join(ws, " ") != [] && !IsSpace(Join(ws, " ")[0])
  {
    JoinHead(ws, " ");
    assert ws[0] in ws;
    assert Join(ws, " ")[0] == ws[0][0];
  }

  /** Leading whitespace does not change what `split()` yields. */
  lemma {:induction false} WordsSkipSpace(sp: string, rest: string)
    requires AllSpace(sp)
    requires rest == [] || !IsSpace(rest[0])
    ensures Words(sp + rest) == Words(rest)
  {
    TrimLeftSpaces(sp, rest);
    TrimLeftSpaces([], rest);
    assert [] + rest == rest;
  }

  lemma {:induction false} SplitMaxSkipSpace(sp: string, rest: string, maxsplit: nat)
    requires AllSpace(sp)
    requires rest == [] || !IsSpace(rest[0])
    ensures SplitMax(sp + rest, maxsplit) == SplitMax(rest, maxsplit)
  {
    TrimLeftSpaces(sp, rest);
    TrimLeftSpaces([], rest);
    assert [] + rest == rest;
  }

  /** `split()` undoes a single-space join of words. */
  lemma {:induction false} WordsOfJoin(ws: seq<string>)
    requires forall w :: w in ws ==> IsWord(w)
    ensures Words(Join(ws, " ")) == ws
    decreases |ws|
  {
    if ws == [] {
    } else if |ws| == 1 {
      assert ws[0] in ws;
      WordsCons(ws[0], []);
      assert ws[0] + [] == ws[0];
    } else {
      assert forall v :: v in ws[1..] ==> v in ws;
      WordsOfJoin(ws[1..]);
      WordsOfJoinStep(ws);
    }
  }

  lemma WordsOfJoinStep(ws: seq<string>)
    requires |ws| >= 2
    requires forall w :: w in ws ==> IsWord(w)
    requires Words(Join(ws[1..], " ")) == ws[1..]
    ensures Words(Join(ws, " ")) == ws
  {
    var j := Join(ws[1..], " ");
    assert ws[0] in ws;
    assert forall v :: v in ws[1..] ==> v in ws;
    JoinStartsWithWord(ws[1..]);
    JoinHead(ws, " ");
    assert Join(ws, " ") == ws[0] + (" " + j);
    WordsCons(ws[0], " " + j);
    WordsSkipSpace(" ", j);
    assert ws == [ws[0]] + ws[1..];
  }

  /** `split(None, n)` on `n` words followed by a remainder that starts with a
      non-space character: the words, then the whole remainder. */
  lemma {:induction false} SplitMaxOfJoin(ws: seq<string>, rest: string)
    requires forall w :: w in ws ==> IsWord(w)
    requires rest != [] && !IsSpace(rest[0])
    ensures SplitMax(Join(ws + [rest], " "), |ws|) == ws + [rest]
    decreases |ws|
  {
    if ws == [] {
      assert ws + [rest] == [rest];
      TrimLeftSpaces([], rest);
      assert [] + rest == rest;
    } else {
      var w := ws[0];
      var more := ws[1..] + [rest];
      var j := Join(more, " ");
      assert w in ws;
      assert ws + [rest] == [w] + more;
      assert Join(ws + [rest], " ") == w + (" " + j) by {
        JoinHead([w] + more, " ");
        assert ([w] + more)[1..] == more;
      }
      assert j != [] && !IsSpace(j[0]) by {
        JoinHead(more, " ");
        if ws[1..] == [] {
          assert more[0] == rest;
        } else {
          assert more[0] == ws[1] && ws[1] in ws;
        }
      }
      SplitMaxCons(w, " " + j, |ws| - 1);
      SplitMaxSkipSpace(" ", j, |ws| - 1);
      assert forall v :: v in ws[1..] ==> v in ws;
      SplitMaxOfJoin(ws[1..], rest);
    }
  }

  /** `split(None, n)` on words joined by blanks, with `n` at least the
      number of blanks between them, splits at every blank. */
  lemma {:induction false} SplitMaxOfWords(ws: seq<string>, last: string, maxsplit: nat)
    requires forall w :: w in ws ==> IsWord(w)
    requires IsWord(last) && |ws| <= maxsplit
    ensures SplitMax(Join(ws + [last], " "), maxsplit) == ws + [last]
    decreases |ws|
  {
    if ws == [] {
      assert (ws + [last])[0] == last;
      SplitMaxOfWord(ws + [last], maxsplit);
    } else {
      var rest := ws[1..];
      assert forall v :: v in rest ==> v in ws;
      SplitMaxOfWords(rest, last, maxsplit - 1);
      assert ws[0] in ws;
      SplitMaxOfWordsStep(ws[0], rest, last, maxsplit);
      assert ws == [ws[0]] + rest;
    }
  }

  /** One step of `SplitMaxOfWords`: a word put in front of a join that
      splits back into its words. */
  lemma SplitMaxOfWordsStep(w: string, rest: seq<string>, last: string, maxsplit: nat)
    requires IsWord(w) && IsWord(last) && maxsplit >= 1
    requires forall v :: v in rest ==> IsWord(v)
    requires SplitMax(Join(rest + [last], " "), maxsplit - 1) == rest + [last]
    ensures SplitMax(Join([w] + rest + [last], " "), maxsplit) == [w] + rest + [last]
  {
    var more := rest + [last];
    var j := Join(more, " ");
    assert [w] + rest + [last] == [w] + more;
    assert Join([w] + more, " ") == w + (" " + j) by {
      JoinHead([w] + more, " ");
      assert ([w] + more)[1..] == more;
    }
    assert j != [] && !IsSpace(j[0]) by {
      JoinHead(more, " ");
      if rest != [] {
        assert more[0] == rest[0] && rest[0] in rest;
      }
    }
    SplitMaxSkipSpace(" ", j, maxsplit - 1);
    SplitMaxConsAt(w, " " + j, maxsplit);
  }

  lemma SplitMaxOfWord(ws: seq<string>, maxsplit: nat)
    requires |ws| == 1 && IsWord(ws[0])
    ensures SplitMax(Join(ws, " "), maxsplit) == ws
  {
    var w := ws[0];
    assert Join(ws, " ") == w;
    if maxsplit == 0 {
      TrimLeftSpaces([], w);
      assert [] + w == w;
    } else {
      SplitMaxCons(w, [], maxsplit - 1);
      assert w + [] == w;
    }
  }



  lemma WordEndBeforeSpace(s: string)
    requires s != [] && IsSpace(s[|s| - 1])
    ensures WordEnd(s) < |s|
  {
    assert s[..|s|] == s;
    assert !NoSpace(s);
  }

  /** A word run that stops at a blank stops there whatever follows. */
  lemma {:induction false} WordEndPrefix(x: string, y: string)
    requires WordEnd(x) < |x|
    ensures WordEnd(x + y) == WordEnd(x)
    decreases |x|
  {
    assert (x + y)[0] == x[0];
    if !IsSpace(x[0]) {
      assert (x + y)[1..] == x[1..] + y;
      WordEndPrefix(x[1..], y);
    }
  }

  /** A word appended after a blank (or to nothing) is the last thing
      `split()` yields, and the words before it are unchanged. */
  lemma {:induction false} WordsSnoc(a: string, w: string)
    requires IsWord(w)
    requires a == [] || IsSpace(a[|a| - 1])
    ensures Words(a + w) == Words(a) + [w]
    decreases |a|
  {
    var k := LeadingSpaces(a);
    if k == |a| {
      WordsSnocBlank(a, w);
    } else {
      var ta := a[k..];
      var n := WordEnd(ta);
      var rest := ta[n..];
      WordsSnocFirst(a, w, k, ta, n);
      WordsSnoc(rest, w);
      SeqAssoc([ta[..n]], Words(rest), [w]);
    }
  }

  lemma SeqAssoc<T>(x: seq<T>, y: seq<T>, z: seq<T>)
    ensures x + (y + z) == (x + y) + z
  {
  }

  lemma WordsSnocBlank(a: string, w: string)
    requires IsWord(w) && LeadingSpaces(a) == |a|
    ensures Words(a + w) == Words(a) + [w]
  {
    assert a[..|a|] == a;
    TrimLeftSpaces(a, w);
    WordEndOfWordThenSpace(w, []);
    assert w + [] == w;
    assert w[..|w|] == w && w[|w|..] == [];
  }

  /** The first word of `a` is the first word of `a + w` when `a` ends
      with a blank, and the rest of `a` after it still ends with a blank. */
  lemma WordsSnocFirst(a: string, w: string, k: nat, ta: string, n: nat)
    requires k == LeadingSpaces(a) < |a| && IsSpace(a[|a| - 1])
    requires ta == a[k..] && n == WordEnd(ta)
    ensures 1 <= n < |ta| && IsSpace(ta[n..][|ta[n..]| - 1])
    ensures Words(a) == [ta[..n]] + Words(ta[n..])
    ensures Words(a + w) == [ta[..n]] + Words(ta[n..] + w)
  {
    assert ta[|ta| - 1] == a[|a| - 1];
    WordEndBeforeSpace(ta);
    assert ta[n..][|ta[n..]| - 1] == ta[|ta| - 1];
    WordsSnocFirstLonger(a, w, k, ta, n);
  }

  lemma WordsSnocFirstLonger(a: string, w: string, k: nat, ta: string, n: nat)
    requires k == LeadingSpaces(a) < |a| && ta == a[k..] && n == WordEnd(ta) < |ta|
    ensures Words(a + w) == [ta[..n]] + Words(ta[n..] + w)
  {
    var u := ta + w;
    TrimLeftAfterLeading(a, w, k);
    WordEndPrefix(ta, w);
    assert u[..n] == ta[..n];
    assert u[n..] == ta[n..] + w;
    WordsUnfold(a + w, u, n);
  }

  lemma TrimLeftAfterLeading(a: string, w: string, k: nat)
    requires k == LeadingSpaces(a) < |a|
    ensures TrimLeft(a + w) == a[k..] + w
  {
    LeadingSpacesAppend(a, w);
    assert (a + w)[k..] == a[k..] + w;
  }

  /** Text after a non-space character does not change the leading run of
      whitespace. */
  lemma {:induction false} LeadingSpacesAppend(a: string, w: string)
    requires LeadingSpaces(a) < |a|
    ensures LeadingSpaces(a + w) == LeadingSpaces(a)
    decreases |a|
  {
    assert (a + w)[0] == a[0];
    if IsSpace(a[0]) {
      assert (a + w)[1..] == a[1..] + w;
      LeadingSpacesAppend(a[1..], w);
    }
  }


  /** One step of `split()`: the first word, then the words of the rest. */
  lemma WordsUnfold(s: string, t: string, n: nat)
    requires TrimLeft(s) == t && t != [] && n == WordEnd(t)
    ensures Words(s) == [t[..n]] + Words(t[n..])
  {
  }


  // ---------------------------------------------------------------------------
  // split(sep) for a one-character separator, and splitlines()

  /** Index of the first `c` in `s`, or `|s|` when there is none. */
  function CharEnd(s: string, c: char): (n: nat)
    ensures n <= |s| && c !in s[..n] && (n < |s| ==> s[n] == c)
  {
    if s == [] || s[0] == c then 0
    else
      var n := CharEnd(s[1..], c);
      assert s[..n + 1] == [s[0]] + s[1..][..n];
      1 + n
  }

  /** `s.split(sep)` for a single-character separator. */
  function SplitOn(s: string, sep: char): (r: seq<string>)
    ensures |r| >= 1
    ensures forall p :: p in r ==> sep !in p
    decreases |s|
  {
    var n := CharEnd(s, sep);
    if n == |s| then
      assert s[..n] == s;
      [s]
    else [s[..n]] + SplitOn(s[n + 1..], sep)
  }

  /** `split(sep)` and `sep.join` are inverse to each other. */
  lemma {:induction false} JoinOfSplitOn(s: string, sep: char)
    ensures Join(SplitOn(s, sep), [sep]) == s
    decreases |s|
  {
    var n := CharEnd(s, sep);
    if n == |s| {
      assert s[..n] == s;
    } else {
      JoinOfSplitOn(s[n + 1..], sep);
      var parts := SplitOn(s, sep);
      assert parts[1..] == SplitOn(s[n + 1..], sep);
      assert s == s[..n] + [sep] + s[n + 1..];
    }
  }

  lemma {:induction false} SplitOnOfJoin(parts: seq<string>, sep: char)
    requires |parts| >= 1
    requires forall p :: p in parts ==> sep !in p
    ensures SplitOn(Join(parts, [sep]), sep) == parts
    decreases |parts|
  {
    var s := Join(parts, [sep]);
    var p := parts[0];
    assert p in parts;
    assert forall i :: 0 <= i < |p| ==> p[i] != sep by {
      forall i | 0 <= i < |p| ensures p[i] != sep { assert p[i] in p; }
    }
    if |parts| == 1 {
      CharEndOfFree(p, [], sep);
      assert p + [] == p;
    } else {
      var j := Join(parts[1..], [sep]);
      assert s == p + ([sep] + j);
      CharEndOfFree(p, [sep] + j, sep);
      assert s[..|p|] == p;
      assert s[|p| + 1..] == j;
      assert forall q :: q in parts[1..] ==> q in parts;
      SplitOnOfJoin(parts[1..], sep);
    }
  }

  lemma {:induction false} CharEndOfFree(p: string, rest: string, c: char)
    requires forall i :: 0 <= i < |p| ==> p[i] != c
    requires rest == [] || rest[0] == c
    ensures CharEnd(p + rest, c) == |p|
    decreases |p|
  {
    if p == [] {
      assert p + rest == rest;
    } else {
      assert (p + rest)[0] == p[0];
      assert (p + rest)[1..] == p[1..] + rest;
      CharEndOfFree(p[1..], rest, c);
    }
  }

  /** Index of the first line boundary in `s`, or `|s|`. */
  function LineEnd(s: string): (n: nat)
    ensures n <= |s| && NoLineBreak(s[..n]) && (n < |s| ==> IsLineBreak(s[n]))
  {
    if s == [] || IsLineBreak(s[0]) then 0
    else
      var n := LineEnd(s[1..]);
      assert s[..n + 1] == [s[0]] + s[1..][..n];
      1 + n
  }

  /** Width of the line boundary at `n`: `\r\n` is one boundary of two characters. */
  function BreakWidth(s: string, n: nat): nat
    requires n < |s|
  {
    if s[n] == '\r' && n + 1 < |s| && s[n + 1] == '\n' then 2 else 1
  }

  /** `s.splitlines()`: the lines without their boundaries; a final boundary
      does not start an extra empty line, and `""` has no lines. */
  function SplitLines(s: string): (r: seq<string>)
    ensures forall l :: l in r ==> NoLineBreak(l)
    ensures s == [] <==> r == []
    decreases |s|
  {
    if s == [] then []
    else
      var n := LineEnd(s);
      if n == |s| then
        assert s[..n] == s;
        [s]
      else [s[..n]] + SplitLines(s[n + BreakWidth(s, n)..])
  }

  /** `splitlines()` undoes a `"\n".join` of non-empty lines without boundaries. */
  lemma {:induction false} SplitLinesOfJoin(lines: seq<string>)
    requires forall l :: l in lines ==> l != [] && NoLineBreak(l)
    ensures SplitLines(Join(lines, "\n")) == lines
    decreases |lines|
  {
    if lines == [] {
    } else {
      var l := lines[0];
      assert l in lines;
      var s := Join(lines, "\n");
      if |lines| == 1 {
        LineEndOfFree(l, []);
        assert l + [] == l;
      } else {
        var j := Join(lines[1..], "\n");
        assert s == l + ("\n" + j);
        LineEndOfFree(l, "\n" + j);
        assert s[..|l|] == l;
        assert s[|l| + 1..] == j;
        assert forall q :: q in lines[1..] ==> q in lines;
        SplitLinesOfJoin(lines[1..]);
      }
    }
  }

  /** Text without a line boundary is a single line (or none when empty). */
  lemma {:induction false} SplitLinesOfLine(s: string)
    requires NoLineBreak(s)
    ensures SplitLines(s) == if s == [] then [] else [s]
  {
    if s != [] {
      LineEndOfFree(s, []);
      assert s + [] == s;
    }
  }

  /** Stripping cannot introduce a line boundary. */
  lemma StripNoLineBreak(s: string)
    requires NoLineBreak(s)
    ensures NoLineBreak(Strip(s))
  {
    StripIsSlice(s);
    var k := LeadingSpaces(s);
    var r := Strip(s);
    forall i | 0 <= i < |r| ensures !IsLineBreak(r[i]) {
      assert r[i] == s[k + i];
    }
  }

  lemma {:induction false} LineEndOfFree(p: string, rest: string)
    requires NoLineBreak(p)
    requires rest == [] || rest[0] == '\n'
    ensures LineEnd(p + rest) == |p|
    decreases |p|
  {
    if p == [] {
      assert p + rest == rest;
    } else {
      assert (p + rest)[0] == p[0];
      assert (p + rest)[1..] == p[1..] + rest;
      LineEndOfFree(p[1..], rest);
    }
  }

  // ---------------------------------------------------------------------------
  // find(), slicing, prefixes and suffixes, upper()

  predicate OccursAt(s: string, sub: string, i: int)
  {
    0 <= i && i + |sub| <= |s| && s[i..i + |sub|] == sub
  }

  function FindFrom(s: string, sub: string, from: nat): (r: int)
    ensures r == -1 || (from <= r && OccursAt(s, sub, r))
    ensures forall i :: from <= i && (r == -1 || i < r) ==> !OccursAt(s, sub, i)
    decreases |s| - from
  {
    if from + |sub| > |s| then -1
    else if s[from..from + |sub|] == sub then from
    else FindFrom(s, sub, from + 1)
  }

  /** `s.find(sub)`: the first index where `sub` occurs, or -1. */
  function Find(s: string, sub: string): (r: int)
    ensures r == -1 || OccursAt(s, sub, r)
    ensures forall i :: 0 <= i && (r == -1 || i < r) ==> !OccursAt(s, sub, i)
  {
    FindFrom(s, sub, 0)
  }

  function Min(a: int, b: int): int { if a <= b then a else b }

  /** `s[a:b]` for non-negative bounds: both clamped to `len(s)`, and empty
      when the start is not before the end. */
  function Slice(s: string, a: nat, b: nat): (r: string)
    ensures |r| == (if a < b && a < |s| then Min(b, |s|) - a else 0)
    ensures forall k :: 0 <= k < |r| ==> r[k] == s[a + k]
  {
    if a < b && a < |s| then s[a..Min(b, |s|)] else []
  }

  predicate StartsWith(s: string, prefix: string)
  {
    |prefix| <= |s| && s[..|prefix|] == prefix
  }

  predicate EndsWith(s: string, suffix: string)
  {
    |suffix| <= |s| && s[|s| - |suffix|..] == suffix
  }

  function UpperChar(c: char): char
  {
    if 'a' <= c <= 'z' then (c as int - 'a' as int + 'A' as int) as char else c
  }

  /** `s.upper()` for ASCII letters; every other character is kept. */
  function Upper(s: string): (r: string)
    ensures |r| == |s| && forall i :: 0 <= i < |s| ==> r[i] == UpperChar(s[i])
  {
    if s == [] then [] else [UpperChar(s[0])] + Upper(s[1..])
  }

  // ---------------------------------------------------------------------------
  // int(), str() and oct() of integers

  predicate IsDigit(c: char) { '0' <= c <= '9' }

  predicate AllDigits(s: string) { forall i :: 0 <= i < |s| ==> IsDigit(s[i]) }

  function DigitChar(d: nat): (c: char)
    requires d < 10
    ensures IsDigit(c) && DigitValue(c) == d
  {
    ('0' as int + d) as char
  }

  function DigitValue(c: char): nat
    requires IsDigit(c)
  {
    c as int - '0' as int
  }

  /** The value of a string of digits, all below `base`, read in that base. */
  function DigitsValue(s: string, base: nat): nat
    requires AllDigits(s)
  {
    if s == [] then 0 else DigitsValue(s[..|s| - 1], base) * base + DigitValue(s[|s| - 1])
  }

  /** The digits of `n` in `base`, most significant first, without leading zeros. */
  function NatToDigits(n: nat, base: nat): (r: string)
    requires 2 <= base <= 10
    ensures r != [] && AllDigits(r)
    ensures forall i :: 0 <= i < |r| ==> DigitValue(r[i]) < base
    decreases n
  {
    if n < base then [DigitChar(n)]
    else
      DivLess(n, base);
      var front := NatToDigits(n / base, base);
      var last := DigitChar(n % base);
      assert DigitValue(last) < base;
      front + [last]
  }

  lemma DivMod(n: nat, base: nat)
    requires base > 0
    ensures (n / base) * base + n % base == n
  {
  }

  lemma {:induction false} DigitsRoundTrip(n: nat, base: nat)
    requires 2 <= base <= 10
    ensures DigitsValue(NatToDigits(n, base), base) == n
    decreases n
  {
    if n >= base {
      DivLess(n, base);
      DigitsRoundTrip(n / base, base);
      DigitsStep(n, base);
    } else {
      DigitsSingle(n, base);
    }
  }

  lemma DivLess(n: nat, base: nat)
    requires 2 <= base <= n
    ensures n / base < n
  {
    var q := n / base;
    DivMod(n, base);
    assert q * base == q * 2 + q * (base - 2);
    assert q * (base - 2) >= 0;
  }

  lemma DigitsSingle(n: nat, base: nat)
    requires 2 <= base <= 10 && n < base
    ensures DigitsValue(NatToDigits(n, base), base) == n
  {
    var r := NatToDigits(n, base);
    assert r[..|r| - 1] == [];
    assert DigitsValue(r, base) == 0 * base + n;
  }

  /** The last digit of `n` is `n % base`, and the ones before it spell
      `n / base`. */
  lemma DigitsStep(n: nat, base: nat)
    requires 2 <= base <= 10 && n >= base
    requires DigitsValue(NatToDigits(n / base, base), base) == n / base
    ensures DigitsValue(NatToDigits(n, base), base) == n
  {
    var r := NatToDigits(n, base);
    var q, d := n / base, n % base;
    assert r[..|r| - 1] == NatToDigits(q, base);
    assert DigitValue(r[|r| - 1]) == d;
    assert DigitsValue(r, base) == q * base + d;
    DivMod(n, base);
  }

  /** `str(n)` for an integer. */
  function IntToString(n: int): (r: string)
  {
    if n < 0 then "-" + NatToDigits(-n, 10) else NatToDigits(n, 10)
  }

  /** `oct(n)`: "0o" and the octal digits, with a leading "-" when negative. */
  function Oct(n: int): (r: string)
  {
    if n < 0 then "-0o" + NatToDigits(-n, 8) else "0o" + NatToDigits(n, 8)
  }

  /** `int(s)` for decimal text: surrounding whitespace, an optional sign and at
      least one ASCII digit. */
  function ParseInt(s: string): (r: Option<int>)
  {
    var t := Strip(s);
    if t != [] && (t[0] == '-' || t[0] == '+') then
      var ds := t[1..];
      if ds != [] && AllDigits(ds) then
        Some(if t[0] == '-' then -(DigitsValue(ds, 10) as int) else DigitsValue(ds, 10))
      else None
    else if t != [] && AllDigits(t) then Some(DigitsValue(t, 10))
    else None
  }

  /** What `str(n)` looks like at its ends, and that upper-casing keeps it. */
  lemma {:induction false} IntTextShape(n: int)
    ensures var t := IntToString(n);
      t != [] && !IsSpace(t[0]) && IsDigit(t[|t| - 1]) && Upper(t) == t && NoSpace(t)
  {
    var t := IntToString(n);
    var ds := NatToDigits(if n < 0 then -n else n, 10);
    assert IsDigit(ds[|ds| - 1]);
    assert t[|t| - 1] == ds[|ds| - 1];
    forall i | 0 <= i < |t| ensures Upper(t)[i] == t[i] && !IsSpace(t[i]) {
      if n >= 0 {
        assert IsDigit(ds[i]);
      } else if i > 0 {
        assert t[i] == ds[i - 1];
        assert IsDigit(ds[i - 1]);
      }
    }
  }

  /** Reading back what `str()` wrote gives the same integer. */
  lemma {:induction false} ParseIntOfIntToString(n: int)
    ensures ParseInt(IntToString(n)) == Some(n)
  {
    if n < 0 {
      ParseIntOfNegative(n);
    } else {
      ParseIntOfDigits(n);
    }
  }

  lemma ParseIntOfDigits(n: int)
    requires n >= 0
    ensures ParseInt(IntToString(n)) == Some(n)
  {
    var s := NatToDigits(n, 10);
    assert IntToString(n) == s;
    assert IsDigit(s[0]) && IsDigit(s[|s| - 1]);
    StripTrimmed(s);
    DigitsRoundTrip(n, 10);
  }

  lemma ParseIntOfNegative(n: int)
    requires n < 0
    ensures ParseInt(IntToString(n)) == Some(n)
  {
    var ds := NatToDigits(-n, 10);
    calc {
      ParseInt(IntToString(n));
      { assert IntToString(n) == "-" + ds; }
      ParseInt("-" + ds);
      { ParseIntMinus(ds); }
      Some(-(DigitsValue(ds, 10) as int));
      { DigitsRoundTrip(-n, 10); }
      Some(n);
    }
  }

  /** A minus sign before digits reads as the negated digits. */
  lemma ParseIntMinus(ds: string)
    requires ds != [] && AllDigits(ds)
    ensures ParseInt("-" + ds) == Some(-(DigitsValue(ds, 10) as int))
  {
    var s := "-" + ds;
    assert s[0] == '-' && s[1..] == ds;
    assert s[|s| - 1] == ds[|ds| - 1] && IsDigit(ds[|ds| - 1]);
    StripTrimmed(s);
  }

  /** `int(s, 8)` for the text `oct()` writes: optional "-", then "0o", then octal digits. */
  function ParseOct(s: string): (r: Option<int>)
  {
    if |s| >= 3 && s[..3] == "-0o" && s[3..] != [] && AllDigits(s[3..]) && OctalDigits(s[3..]) then
      Some(-(DigitsValue(s[3..], 8) as int))
    else if |s| >= 2 && s[..2] == "0o" && s[2..] != [] && AllDigits(s[2..]) && OctalDigits(s[2..]) then
      Some(DigitsValue(s[2..], 8))
    else None
  }

  predicate OctalDigits(s: string)
    requires AllDigits(s)
  {
    forall i :: 0 <= i < |s| ==> DigitValue(s[i]) < 8
  }

  lemma {:induction false} ParseOctOfOct(n: int)
    ensures ParseOct(Oct(n)) == Some(n)
  {
    var s := Oct(n);
    if n < 0 {
      assert s[3..] == NatToDigits(-n, 8);
      DigitsRoundTrip(-n, 8);
    } else {
      assert s[0] == '0' && s[2..] == NatToDigits(n, 8);
      DigitsRoundTrip(n, 8);
    }
  }
}
