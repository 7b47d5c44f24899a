/** The operations whose reply is a single token or line of the output:
    `notify` answers with the id of the recorded notice, `get_system_info`
    with the client's version. */
module Replies {
  import opened Types
  import opened PyStr

  /** `stdout.strip().split()[-1]`: the last word of the reply, or an
      `IndexError` when the reply is blank. */
  function NoticeIdOf(stdout: string): (r: Result<string>)
    ensures r.Ok? ==> IsWord(r.value) && r.value in Words(Strip(stdout))
    ensures r.Err? ==> r.error == IndexError
  {
    var words := Words(Strip(stdout));
    if words == [] then Err(IndexError) else Ok(words[|words| - 1])
  }

  /** Only a blank reply has no notice id. */
  lemma NoticeIdOfBlank(stdout: string)
    ensures NoticeIdOf(stdout).Err? <==> AllSpace(stdout)
  {
    StripEmpty(stdout);
    var t := Strip(stdout);
    if t == [] {
      WordsOfBlank(t);
    } else {
      assert LeadingSpaces(t) == 0;
      assert TrimLeft(t) == t;
    }
  }

  /** Whatever comes before it, a word after a blank at the end of the
      reply (trailing whitespace aside) is the notice id. */
  lemma NoticeIdOfLastWord(pre: string, id: string, pad: string)
    requires IsWord(id) && AllSpace(pad)
    ensures NoticeIdOf(pre + " " + id + pad) == Ok(id)
  {
    var x := StripBeforeLastWord(pre, id, pad);
    WordsSnoc(x, id);
  }

  /** Stripping such a reply leaves the id behind a blank, or the id alone. */
  lemma StripBeforeLastWord(pre: string, id: string, pad: string) returns (x: string)
    requires IsWord(id) && AllSpace(pad)
    ensures Strip(pre + " " + id + pad) == x + id
    ensures x == [] || IsSpace(x[|x| - 1])
  {
    var s := pre + " " + id + pad;
    var m := |pre| + 1;
    var e := m + |id|;
    assert s[e - 1] == id[|id| - 1] && s[e..] == pad;
    StripEndsAt(s, e);
    var k := LeadingSpaces(s);
    assert k <= m by {
      assert s[m] == id[0];
      assert s[..k] == s[0..k];
      AllSpaceBetween(s, 0, k);
    }
    x := s[k..m];
    assert s[k..e] == x + id;
    assert s[m - 1] == ' ';
    assert x != [] ==> x[|x| - 1] == s[m - 1];
  }

  /** The reply "Recorded notice 38" yields the id "38". */
  lemma NoticeIdOfRecorded(n: int, pad: string)
    requires AllSpace(pad)
    ensures NoticeIdOf("Recorded notice " + IntToString(n) + pad) == Ok(IntToString(n))
  {
    var id := IntToString(n);
    var ws := ["Recorded", "notice", id];
    var line := Join(ws, " ");
    assert line == "Recorded notice " + id by {
      assert Join(ws[2..], " ") == id;
      assert Join(ws[1..], " ") == "notice" + " " + id;
    }
    RecordedWords(n);
    StripPadded(line, pad);
    assert Words(Strip(line + pad)) == ws;
  }

  /** The words of the reply line are "Recorded", "notice" and the id. */
  lemma RecordedWords(n: int)
    ensures var ws := ["Recorded", "notice", IntToString(n)];
      var line := Join(ws, " ");
      Words(line) == ws && Trimmed(line)
  {
    var ws := ["Recorded", "notice", IntToString(n)];
    IntTextShape(n);
    assert IsWord("Recorded") by { assert NoSpace("Recorded"); }
    assert IsWord("notice") by { assert NoSpace("notice"); }
    WordLine(ws);
  }

  /** `stdout.strip().split("\n")[0].strip()`: the first line of the reply. */
  function SystemVersionOf(stdout: string): (r: string)
    ensures Trimmed(r) && '\n' !in r
  {
    var lines := SplitOn(Strip(stdout), '\n');
    var line := Strip(lines[0]);
    assert lines[0] in lines;
    StripSub(lines[0]);
    line
  }

  /** A sub-text of a text without line feeds has none either. */
  lemma StripSub(s: string)
    requires '\n' !in s
    ensures '\n' !in Strip(s)
  {
    StripIsSlice(s);
    var k := LeadingSpaces(s);
    var r := Strip(s);
    forall i | 0 <= i < |r| ensures r[i] != '\n' {
      assert r[i] == s[k + i];
    }
  }

  /** The first part of a split is the text up to the first separator. */
  lemma SplitOnHead(p: string, rest: string, c: char)
    requires c !in p
    requires rest == [] || rest[0] == c
    ensures SplitOn(p + rest, c)[0] == p
  {
    CharEndOfFree(p, rest, c);
    assert (p + rest)[..|p|] == p;
  }

  /** A version printed on the first line, whatever follows it, is the
      version read back: "v1.0.0\n" gives "v1.0.0". */
  lemma SystemVersionOfFirstLine(v: string, tail: string)
    requires v != [] && Trimmed(v) && '\n' !in v
    ensures SystemVersionOf(v + "\n" + tail) == v
  {
    var s := v + "\n" + tail;
    assert s[0] == v[0];
    assert LeadingSpaces(s) == 0;
    StripIsSlice(s);
    var r := Strip(s);
    assert r == s[..|r|];
    forall i | |r| <= i < |s| ensures IsSpace(s[i]) {
      assert s[i] == s[|r|..][i - |r|];
    }
    assert !IsSpace(s[|v| - 1]);
    assert r == v + r[|v|..];
    assert r[|v|..] == [] || r[|v|..][0] == '\n';
    SplitOnHead(v, r[|v|..], '\n');
    StripTrimmed(v);
  }
}
