/** `get_identities`: the `identities` listing becomes a dictionary from
    identity name to its access level and the kinds of credential it has. The
    listing only names the kinds, so a basic identity gets a masked password
    and a local one the user id -1. */
module Identities {
  import opened Types
  import opened PyStr

  const NoIdentities := "No identities."

  /** The identity described by a row's words `name access types ...`. */
  function IdentityOfParts(parts: seq<string>): (r: Identity)
    requires |parts| >= 3
    ensures r.access == parts[1]
    ensures r.basic.Some? <==> "basic" in SplitOn(parts[2], ',')
    ensures r.local.Some? <==> "local" in SplitOn(parts[2], ',')
    ensures r.basic.Some? ==> r.basic.value.password == "*****"
    ensures r.local.Some? ==> r.local.value.userId == -1
  {
    var types := SplitOn(parts[2], ',');
    Identity(
      parts[1],
      if "basic" in types then Some(BasicIdentity("*****")) else None,
      if "local" in types then Some(LocalIdentity(-1)) else None)
  }

  /** The loop over the data rows, from the dictionary built so far: blank
      rows and one-word rows are skipped, a two-word row fails on its missing
      third word, and any other row (re)binds its name. */
  function IdentityRows(rows: seq<string>, acc: map<string, Identity>): Result<map<string, Identity>>
  {
    if rows == [] then Ok(acc)
    else
      var parts := Words(rows[0]);
      if Strip(rows[0]) == [] || |parts| < 2 then IdentityRows(rows[1..], acc)
      else if |parts| == 2 then Err(IndexError)
      else IdentityRows(rows[1..], acc[parts[0] := IdentityOfParts(parts)])
  }

  /** The parse of the whole output: after stripping, the single line
      "No identities." means none; otherwise the first line is a header. */
  function IdentitiesOf(stdout: string): Result<map<string, Identity>>
  {
    var lines := SplitOn(Strip(stdout), '\n');
    if lines == [NoIdentities] then Ok(map[])
    else IdentityRows(lines[1..], map[])
  }

  method ParseIdentities(stdout: string) returns (r: Result<map<string, Identity>>)
    ensures r == IdentitiesOf(stdout)
  {
    var identities: map<string, Identity> := map[];
    var lines := SplitOn(Strip(stdout), '\n');
    if lines == [NoIdentities] {
      return Ok(identities);
    }
    var rows := lines[1..];
    var i := 0;
    assert rows[0..] == rows;
    while i < |rows|
      invariant 0 <= i <= |rows|
      invariant IdentityRows(rows, map[]) == IdentityRows(rows[i..], identities)
    {
      var line := rows[i];
      assert rows[i..][1..] == rows[i + 1..];
      if Strip(line) != [] {
        var parts := Words(line);
        if |parts| >= 2 {
          if |parts| == 2 {
            return Err(IndexError);
          }
          identities := identities[parts[0] := IdentityOfParts(parts)];
        }
      }
      i := i + 1;
    }
    assert rows[i..] == [];
    return Ok(identities);
  }

  /** A row that binds a name: non-blank with at least three words. */
  predicate Binding(row: string)
  {
    Strip(row) != [] && |Words(row)| >= 3
  }

  /** A row the source indexes past its end. */
  predicate TwoWords(row: string)
  {
    Strip(row) != [] && |Words(row)| == 2
  }

  /** The words of the LAST binding row for `name`, if there is one. */
  function LastBinding(rows: seq<string>, name: string): (r: Option<seq<string>>)
    ensures r.Some? ==> |r.value| >= 3 && r.value[0] == name
  {
    if rows == [] then None
    else
      var later := LastBinding(rows[1..], name);
      if later.Some? then later
      else if Binding(rows[0]) && Words(rows[0])[0] == name then Some(Words(rows[0]))
      else None
  }

  /** The parse fails exactly when some row has two words, and then with an
      `IndexError`. */
  lemma {:induction false} IdentityRowsFail(rows: seq<string>, acc: map<string, Identity>)
    ensures IdentityRows(rows, acc).Err? <==> exists k :: 0 <= k < |rows| && TwoWords(rows[k])
    ensures IdentityRows(rows, acc).Err? ==> IdentityRows(rows, acc).error == IndexError
  {
    if rows != [] {
      var acc' := if Binding(rows[0]) then acc[Words(rows[0])[0] := IdentityOfParts(Words(rows[0]))] else acc;
      IdentityRowsFail(rows[1..], acc');
      assert (exists k :: 0 <= k < |rows| && TwoWords(rows[k]))
         <==> TwoWords(rows[0]) || exists k :: 0 <= k < |rows[1..]| && TwoWords(rows[1..][k]) by {
        if exists k :: 0 <= k < |rows| && TwoWords(rows[k]) {
          var k :| 0 <= k < |rows| && TwoWords(rows[k]);
          if k > 0 { assert TwoWords(rows[1..][k - 1]); }
        }
        if exists k :: 0 <= k < |rows[1..]| && TwoWords(rows[1..][k]) {
          var k :| 0 <= k < |rows[1..]| && TwoWords(rows[1..][k]);
          assert TwoWords(rows[k + 1]);
        }
      }
    }
  }

  /** On success the dictionary holds every name bound by a row, each mapped
      to the identity of its last row (a later row replaces an earlier one),
      and otherwise what it held before. */
  lemma {:induction false} IdentityRowsMeaning(rows: seq<string>, acc: map<string, Identity>, name: string)
    requires IdentityRows(rows, acc).Ok?
    ensures var m := IdentityRows(rows, acc).value;
      && (name in m <==> name in acc || LastBinding(rows, name).Some?)
      && (LastBinding(rows, name).Some? ==> m[name] == IdentityOfParts(LastBinding(rows, name).value))
      && (LastBinding(rows, name).None? && name in acc ==> m[name] == acc[name])
  {
    if rows != [] {
      var parts := Words(rows[0]);
      if Binding(rows[0]) {
        IdentityRowsMeaning(rows[1..], acc[parts[0] := IdentityOfParts(parts)], name);
      } else {
        IdentityRowsMeaning(rows[1..], acc, name);
      }
    }
  }

  /** The sentinel line yields no identities. */
  lemma NoIdentitiesEmpty(pad: string)
    requires AllSpace(pad)
    ensures IdentitiesOf(NoIdentities + pad) == Ok(map[])
  {
    assert Trimmed(NoIdentities);
    StripPadded(NoIdentities, pad);
    assert Join([NoIdentities], "\n") == NoIdentities;
    SplitOnOfJoin([NoIdentities], '\n');
  }
}
