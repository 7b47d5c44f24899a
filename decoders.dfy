/** The two field decoders of the file listing: the `rwxr-xr-x` permission
    string and the human-readable size column. */
module Decoders {
  import opened Types
  import opened PyStr

  // ---------------------------------------------------------------------------
  // Permission strings

  /** Value of the `rwx` triple at `i`: 4 for 'r', 2 for 'w', 1 for 'x' in
      their positions; any other character counts 0 and is not an error. */
  function TripleValue(perm: string, i: nat): nat
    requires i + 3 <= |perm|
  {
    (if perm[i] == 'r' then 4 else 0)
    + (if perm[i + 1] == 'w' then 2 else 0)
    + (if perm[i + 2] == 'x' then 1 else 0)
  }

  function Pow8(k: nat): nat
  {
    if k == 0 then 1 else 8 * Pow8(k - 1)
  }

  /** The octal number whose digits are the first `k` triples of `perm`. */
  function TriplesValue(perm: string, k: nat): (v: nat)
    requires 3 * k <= |perm|
    ensures v < Pow8(k)
  {
    if k == 0 then 0 else TriplesValue(perm, k - 1) * 8 + TripleValue(perm, 3 * (k - 1))
  }

  /** The mode a nine-character permission string stands for. */
  function PermissionsValue(perm: string): nat
    requires |perm| == 9
  {
    TriplesValue(perm, 3)
  }

  /** `_permissions_to_int`: a string of any length other than 9 is rejected;
      otherwise each triple is accumulated as one octal digit. */
  method PermissionsToInt(perm: string) returns (r: Result<int>)
    ensures |perm| != 9 ==> r == Err(ValueError(BadPermissionLength))
    ensures |perm| == 9 ==> r == Ok(PermissionsValue(perm))
  {
    if |perm| != 9 {
      return Err(ValueError(BadPermissionLength));
    }
    var result := 0;
    var i := 0;
    while i < 9
      invariant 0 <= i <= 9 && i % 3 == 0
      invariant result == TriplesValue(perm, i / 3)
    {
      var groupValue := 0;
      if perm[i] == 'r' {
        groupValue := groupValue + 4;
      }
      if perm[i + 1] == 'w' {
        groupValue := groupValue + 2;
      }
      if perm[i + 2] == 'x' {
        groupValue := groupValue + 1;
      }
      // `(result << 3) | group_value` on a non-negative result and a digit below 8
      result := result * 8 + groupValue;
      i := i + 3;
    }
    return Ok(result);
  }

  /** A decoded mode is three octal digits: 64 g0 + 8 g1 + g2, below 0o1000. */
  lemma {:induction false} PermissionsDigits(perm: string)
    requires |perm| == 9
    ensures PermissionsValue(perm)
      == 64 * TripleValue(perm, 0) + 8 * TripleValue(perm, 3) + TripleValue(perm, 6)
    ensures 0 <= PermissionsValue(perm) < 512
  {
    assert TriplesValue(perm, 1) == TripleValue(perm, 0);
    assert TriplesValue(perm, 2) == 8 * TripleValue(perm, 0) + TripleValue(perm, 3);
    assert Pow8(3) == 512;
  }

  /** "rwxr-xr-x" is 0o755 and "rw-------" is 0o600. */
  lemma PermissionsExample()
    ensures PermissionsValue("rwxr-xr-x") == 7 * 64 + 5 * 8 + 5
    ensures PermissionsValue("rw-------") == 6 * 64
  {
    PermissionsDigits("rwxr-xr-x");
    PermissionsDigits("rw-------");
  }

  /** The `ls -l` rendering of one octal digit. */
  function TripleString(d: nat): (s: string)
    requires d < 8
    ensures |s| == 3
  {
    [if d >= 4 then 'r' else '-', if d % 4 >= 2 then 'w' else '-', if d % 2 == 1 then 'x' else '-']
  }

  /** The nine-character rendering of a mode below 0o1000. */
  function ModeString(mode: nat): (s: string)
    requires mode < 512
    ensures |s| == 9
  {
    TripleString(mode / 64) + TripleString(mode / 8 % 8) + TripleString(mode % 8)
  }

  /** A character is the letter for its position or '-'. */
  predicate StandardPermissions(perm: string)
  {
    |perm| == 9
    && forall i :: 0 <= i < 9 ==> perm[i] == "rwxrwxrwx"[i] || perm[i] == '-'
  }

  lemma TripleRoundTrip(d: nat)
    requires d < 8
    ensures TripleValue(TripleString(d), 0) == d
  {
  }

  /** The three octal digits of a mode below 0o1000. */
  lemma OctalDigits(mode: nat)
    requires mode < 512
    ensures mode / 64 < 8 && mode / 8 % 8 < 8 && mode % 8 < 8
    ensures mode == 64 * (mode / 64) + 8 * (mode / 8 % 8) + mode % 8
  {
    var q := mode / 8;
    assert mode == 8 * q + mode % 8;
    assert q == 8 * (q / 8) + q % 8;
    assert q / 8 == mode / 64;
  }

  lemma ModeStringTriples(mode: nat)
    requires mode < 512
    ensures TripleValue(ModeString(mode), 0) == mode / 64
    ensures TripleValue(ModeString(mode), 3) == mode / 8 % 8
    ensures TripleValue(ModeString(mode), 6) == mode % 8
  {
    OctalDigits(mode);
    var s := ModeString(mode);
    var a, b, c := TripleString(mode / 64), TripleString(mode / 8 % 8), TripleString(mode % 8);
    assert s == a + b + c;
    assert s[0] == a[0] && s[1] == a[1] && s[2] == a[2];
    assert s[3] == b[0] && s[4] == b[1] && s[5] == b[2];
    assert s[6] == c[0] && s[7] == c[1] && s[8] == c[2];
    TripleRoundTrip(mode / 64);
    TripleRoundTrip(mode / 8 % 8);
    TripleRoundTrip(mode % 8);
  }

  /** A rendered mode is made of 'r', 'w', 'x' and '-' only. */
  lemma ModeStringWord(mode: nat)
    requires mode < 512
    ensures IsWord(ModeString(mode))
  {
    var s := ModeString(mode);
    OctalDigits(mode);
    var a, b, c := TripleString(mode / 64), TripleString(mode / 8 % 8), TripleString(mode % 8);
    assert s == a + b + c;
    forall i | 0 <= i < 9 ensures s[i] in "rwx-" {
      if i < 3 { assert s[i] == a[i]; }
      else if i < 6 { assert s[i] == b[i - 3]; }
      else { assert s[i] == c[i - 6]; }
    }
  }

  /** Decoding the rendering of a mode gives the mode back. */
  lemma {:induction false} PermissionsOfModeString(mode: nat)
    requires mode < 512
    ensures PermissionsValue(ModeString(mode)) == mode
  {
    ModeStringTriples(mode);
    PermissionsDigits(ModeString(mode));
    OctalDigits(mode);
  }

  /** On standard strings the decoder is injective: rendering the decoded mode
      gives back the string. */
  lemma {:induction false} ModeStringOfPermissions(perm: string)
    requires StandardPermissions(perm)
    ensures ModeString(PermissionsValue(perm)) == perm
  {
    PermissionsDigits(perm);
    var a, b, c := TripleValue(perm, 0), TripleValue(perm, 3), TripleValue(perm, 6);
    var mode := PermissionsValue(perm);
    OctalOfDigits(a, b, c);
    assert ModeString(mode) == TripleString(a) + TripleString(b) + TripleString(c);
    TripleStringOfValue(perm, 0);
    TripleStringOfValue(perm, 3);
    TripleStringOfValue(perm, 6);
    assert perm == perm[0..3] + perm[3..6] + perm[6..9];
  }

  /** The octal digits of `64 a + 8 b + c` are `a`, `b` and `c`. */
  lemma OctalOfDigits(a: nat, b: nat, c: nat)
    requires a < 8 && b < 8 && c < 8
    ensures var mode := 64 * a + 8 * b + c;
      mode / 64 == a && mode / 8 % 8 == b && mode % 8 == c
  {
    var mode := 64 * a + 8 * b + c;
    assert mode / 8 == 8 * a + b;
  }

  /** A standard triple renders back from its value. */
  lemma TripleStringOfValue(perm: string, k: nat)
    requires StandardPermissions(perm) && k in {0, 3, 6}
    ensures TripleString(TripleValue(perm, k)) == perm[k..k + 3]
  {
    var letters := "rwxrwxrwx";
    assert letters[k] == 'r' && letters[k + 1] == 'w' && letters[k + 2] == 'x' by {
      if k == 0 {} else if k == 3 {} else {}
    }
    assert perm[k] == 'r' || perm[k] == '-';
    assert perm[k + 1] == 'w' || perm[k + 1] == '-';
    assert perm[k + 2] == 'x' || perm[k + 2] == '-';
    TripleBits(perm[k] == 'r', perm[k + 1] == 'w', perm[k + 2] == 'x');
    var t := TripleString(TripleValue(perm, k));
    assert t[0] == perm[k] && t[1] == perm[k + 1] && t[2] == perm[k + 2];
  }

  /** The digit of three permission bits gives each bit back. */
  lemma TripleBits(r: bool, w: bool, x: bool)
    ensures var d := (if r then 4 else 0) + (if w then 2 else 0) + (if x then 1 else 0);
      (d >= 4 <==> r) && (d % 4 >= 2 <==> w) && (d % 2 == 1 <==> x)
  {
  }

  // ---------------------------------------------------------------------------
  // Human-readable sizes

  /** `int(digits) * factor`, or the `ValueError` that `int()` raises. */
  function Scaled(digits: string, factor: int): Result<Option<int>>
  {
    match ParseInt(digits)
    case None => Err(ValueError(NotAnInteger(digits)))
    case Some(n) => Ok(Some(n * factor))
  }

  /** `_human_size_to_int`: the exact string "-" means the size is unknown;
      otherwise, after stripping and upper-casing, a "KB", "MB", "GB" or "B"
      suffix (tested in that order) scales the integer before it. */
  function HumanSizeToInt(size: string): (r: Result<Option<int>>)
    ensures r == Ok(None) <==> size == "-"
    ensures size != "-" && !EndsWith(Upper(Strip(size)), "B")
      ==> r == Err(ValueError(InvalidSize(Upper(Strip(size)))))
  {
    if size == "-" then Ok(None) else SizeOfUpper(Upper(Strip(size)))
  }

  /** The suffix dispatch on the stripped, upper-cased size text. */
  function SizeOfUpper(u: string): (r: Result<Option<int>>)
    ensures r != Ok(None)
    ensures !EndsWith(u, "B") ==> r == Err(ValueError(InvalidSize(u)))
  {
    if EndsWith(u, "KB") then Scaled(u[..|u| - 2], 1024)
    else if EndsWith(u, "MB") then Scaled(u[..|u| - 2], 1024 * 1024)
    else if EndsWith(u, "GB") then Scaled(u[..|u| - 2], 1024 * 1024 * 1024)
    else if EndsWith(u, "B") then Scaled(u[..|u| - 1], 1)
    else Err(ValueError(InvalidSize(u)))
  }

  datatype SizeUnit = Bytes | Kilobytes | Megabytes | Gigabytes

  function UnitSuffix(u: SizeUnit): string
  {
    match u
    case Bytes => "B"
    case Kilobytes => "KB"
    case Megabytes => "MB"
    case Gigabytes => "GB"
  }

  function UnitFactor(u: SizeUnit): nat
  {
    match u
    case Bytes => 1
    case Kilobytes => 1024
    case Megabytes => 1024 * 1024
    case Gigabytes => 1024 * 1024 * 1024
  }

  lemma {:induction false} UpperAppend(a: string, b: string)
    ensures Upper(a + b) == Upper(a) + Upper(b)
  {
    var u := Upper(a + b);
    var v := Upper(a) + Upper(b);
    forall i | 0 <= i < |u|
      ensures u[i] == v[i]
    {
      if i < |a| {
        assert (a + b)[i] == a[i];
      } else {
        assert (a + b)[i] == b[i - |a|];
      }
    }
    assert u == v;
  }

  /** A digit followed by a unit's suffix selects that unit. */
  lemma {:induction false} SizeOfUpperSuffix(num: string, u: SizeUnit)
    requires num != [] && IsDigit(num[|num| - 1])
    ensures SizeOfUpper(num + UnitSuffix(u)) == Scaled(num, UnitFactor(u))
  {
    var t := num + UnitSuffix(u);
    var k := |UnitSuffix(u)|;
    assert t[..|t| - k] == num;
    assert t[|t| - 1] == 'B';
    assert t[|t| - 2] == if u == Bytes then num[|num| - 1] else UnitSuffix(u)[0];
    assert EndsWith(t, "B") by { assert t[|t| - 1..] == "B"; }
    match u
    case Bytes =>
      assert t[|t| - 2..][0] == t[|t| - 2] && IsDigit(t[|t| - 2]);
      assert !EndsWith(t, "KB") && !EndsWith(t, "MB") && !EndsWith(t, "GB");
    case Kilobytes =>
      assert t[|t| - 2..] == "KB";
    case Megabytes =>
      assert t[|t| - 2..] == "MB";
    case Gigabytes =>
      assert t[|t| - 2..] == "GB";
  }

  /** A number written with any spelling of a unit suffix ("811kB", "3 mb")
      decodes to that number of bytes. */
  lemma {:induction false} HumanSizeOfText(n: int, suffix: string, u: SizeUnit)
    requires Upper(suffix) == UnitSuffix(u)
    ensures HumanSizeToInt(IntToString(n) + suffix) == Ok(Some(n * UnitFactor(u)))
  {
    var num := IntToString(n);
    var text := num + suffix;
    IntTextShape(n);
    assert |suffix| >= 1 && UpperChar(suffix[|suffix| - 1]) == 'B';
    assert text[0] == num[0] && text[|text| - 1] == suffix[|suffix| - 1];
    assert Trimmed(text);
    assert text != "-";
    StripTrimmed(text);
    UpperAppend(num, suffix);
    assert Upper(Strip(text)) == num + UnitSuffix(u);
    SizeOfUpperSuffix(num, u);
    ParseIntOfIntToString(n);
  }

  lemma SizeExample()
    ensures HumanSizeToInt("811kB") == Ok(Some(811 * 1024))
    ensures HumanSizeToInt("-") == Ok(None)
  {
    assert NatToDigits(8, 10) == "8";
    assert NatToDigits(81, 10) == NatToDigits(8, 10) + "1";
    assert NatToDigits(811, 10) == NatToDigits(81, 10) + "1";
    assert IntToString(811) + "kB" == "811kB";
    HumanSizeOfText(811, "kB", Kilobytes);
  }
}
