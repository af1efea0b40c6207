/** ARK identifiers as the importer reads them: two spellings, one canonical form. */
module ArkIdentifiers {
  import opened Wrappers
  import Text

  datatype ParseError = BadForm | Empty | Whitespace

  /** Position of the first slash, or the length. */
  function FirstSlash(s: string): (i: nat)
    ensures i <= |s|
    ensures i < |s| ==> s[i] == '/'
    ensures forall j :: 0 <= j < i ==> s[j] != '/'
  {
    if s == "" || s[0] == '/' then 0 else 1 + FirstSlash(s[1..])
  }

  predicate HasSpace(s: string) { exists i :: 0 <= i < |s| && Text.IsSpace(s[i]) }

  /** After `ark:` and one optional slash: a NAAN without slash, a slash, and a name on one line. */
  function ParseRest(rest: string): Result<(string, string), ParseError> {
    var slash := FirstSlash(rest);
    if slash == 0 || slash + 1 >= |rest| || '\n' in rest[slash + 1..] then Err(BadForm)
    else
      var naan, name := rest[..slash], rest[slash + 1..];
      if Text.Strip(naan) == "" || Text.Strip(name) == "" then Err(Empty)
      else if HasSpace(naan + name) then Err(Whitespace)
      else Ok((naan, name))
  }

  function ParseArk(identifier: string): Result<(string, string), ParseError> {
    var value := Text.Strip(identifier);
    if |value| < 4 || value[..4] != "ark:" then Err(BadForm)
    else ParseRest(if |value| > 4 && value[4] == '/' then value[5..] else value[4..])
  }

  predicate WellFormed(naan: string, name: string) {
    naan != "" && name != "" && '/' !in naan && !HasSpace(naan) && !HasSpace(name)
  }

  function Canonical(naan: string, name: string): string { "ark:" + naan + "/" + name }

  function Legacy(naan: string, name: string): string { "ark:/" + naan + "/" + name }

  // ---------- stripping ----------

  lemma StripKeeps(s: string)
    requires s == "" || (!Text.IsSpace(s[0]) && !Text.IsSpace(s[|s| - 1]))
    ensures Text.Strip(s) == s
  {
  }

  // ---------- parsing is exact ----------

  lemma RestMeans(rest: string, naan: string, name: string)
    ensures ParseRest(rest) == Ok((naan, name)) <==> WellFormed(naan, name) && rest == naan + "/" + name
  {
    var slash := FirstSlash(rest);
    if ParseRest(rest) == Ok((naan, name)) {
      assert rest == naan + "/" + name;
      SpacesOf(naan, name);
    }
    if WellFormed(naan, name) && rest == naan + "/" + name {
      SlashAfterNaan(naan, name);
      assert rest[..slash] == naan && rest[slash + 1..] == name;
      SpacesOf(naan, name);
      StripKeeps(naan);
      StripKeeps(name);
    }
  }

  lemma SpacesOf(a: string, b: string)
    ensures HasSpace(a + b) <==> HasSpace(a) || HasSpace(b)
  {
    if i :| 0 <= i < |a| && Text.IsSpace(a[i]) {
      assert (a + b)[i] == a[i];
    }
    if i :| 0 <= i < |b| && Text.IsSpace(b[i]) {
      assert (a + b)[|a| + i] == b[i];
    }
    if i :| 0 <= i < |a + b| && Text.IsSpace((a + b)[i]) {
      assert (a + b)[i] == if i < |a| then a[i] else b[i - |a|];
    }
  }

  lemma SlashAfterNaan(naan: string, name: string)
    requires '/' !in naan
    ensures FirstSlash(naan + "/" + name) == |naan|
  {
    var s := naan + "/" + name;
    assert s[|naan|] == '/';
    assert forall j :: 0 <= j < |naan| ==> s[j] == naan[j];
  }

  /**
   * An identifier is accepted with `naan` and `name` if and only if it is one of the two spellings of that
   * well-formed pair, up to surrounding white space.
   */
  lemma ParseIsExact(identifier: string, naan: string, name: string)
    ensures ParseArk(identifier) == Ok((naan, name))
            <==> WellFormed(naan, name) && Text.Strip(identifier) in {Canonical(naan, name), Legacy(naan, name)}
  {
    hide Text.StripLeft, Text.StripRight, ParseRest;
    var value := Text.Strip(identifier);
    if |value| >= 4 && value[..4] == "ark:" {
      var rest := if |value| > 4 && value[4] == '/' then value[5..] else value[4..];
      RestMeans(rest, naan, name);
      assert value == if |value| > 4 && value[4] == '/' then "ark:/" + rest else "ark:" + rest;
    }
    if WellFormed(naan, name) && value == Canonical(naan, name) {
      assert value[..4] == "ark:" && value[4..] == naan + "/" + name && value[4] == naan[0];
    }
    if WellFormed(naan, name) && value == Legacy(naan, name) {
      assert value[..4] == "ark:" && value[4] == '/' && value[5..] == naan + "/" + name;
    }
  }

  /** The identifier is `ark:`, perhaps a slash, and these two parts around the first slash after that. */
  predicate Splits(identifier: string, naan: string, name: string) {
    && naan != "" && name != "" && '/' !in naan && '\n' !in name
    && Text.Strip(identifier) in {Canonical(naan, name), Legacy(naan, name)}
  }

  /** An identifier has no such form if and only if it can not be split. */
  lemma BadFormMeans(identifier: string)
    ensures ParseArk(identifier) == Err(BadForm) <==> forall naan, name :: !Splits(identifier, naan, name)
  {
    hide Text.Strip, Splits, ParseRest;
    if ParseArk(identifier) == Err(BadForm) {
      forall naan, name | Splits(identifier, naan, name) ensures false {
        RefusalMeans(identifier, naan, name);
      }
    } else {
      var naan, name := ParsedSplits(identifier);
    }
  }

  lemma ParsedSplits(identifier: string) returns (naan: string, name: string)
    requires ParseArk(identifier) != Err(BadForm)
    ensures Splits(identifier, naan, name)
  {
    var value := Text.Strip(identifier);
    hide Text.Strip, ParseRest;
    var rest := if |value| > 4 && value[4] == '/' then value[5..] else value[4..];
    naan, name := RestSplits(rest);
    Joined("ark:", naan, name);
    Joined("ark:/", naan, name);
    assert value == if |value| > 4 && value[4] == '/' then "ark:/" + rest else "ark:" + rest;
  }

  lemma RestSplits(rest: string) returns (naan: string, name: string)
    requires ParseRest(rest) != Err(BadForm)
    ensures naan != "" && name != "" && '/' !in naan && '\n' !in name && rest == naan + "/" + name
  {
    var slash := FirstSlash(rest);
    naan, name := rest[..slash], rest[slash + 1..];
  }

  lemma Joined(head: string, naan: string, name: string)
    ensures head + (naan + "/" + name) == head + naan + "/" + name
  {
  }

  /** Why an identifier is refused: it has no such form, or a part of it is blank, or there is space in it. */
  lemma RefusalMeans(identifier: string, naan: string, name: string)
    requires Splits(identifier, naan, name)
    ensures var parsed := ParseArk(identifier);
            && (parsed == Err(Empty) <==> Text.Strip(naan) == "" || Text.Strip(name) == "")
            && (parsed == Err(Whitespace)
                <==> Text.Strip(naan) != "" && Text.Strip(name) != "" && (HasSpace(naan) || HasSpace(name)))
            && parsed != Err(BadForm)
  {
    var value := Text.Strip(identifier);
    hide Text.Strip;
    var rest := naan + "/" + name;
    SlashAfterNaan(naan, name);
    SpacesOf(naan, name);
    assert rest[..|naan|] == naan && rest[|naan| + 1..] == name;
    if value == Canonical(naan, name) {
      assert value[..4] == "ark:" && value[4..] == rest && value[4] == naan[0];
    } else {
      assert value[..4] == "ark:" && value[4] == '/' && value[5..] == rest;
    }
  }

  /** The canonical form parses back to its pair, so different pairs have different canonical forms. */
  lemma CanonicalParses(naan: string, name: string)
    requires WellFormed(naan, name)
    ensures ParseArk(Canonical(naan, name)) == Ok((naan, name))
  {
    var s := Canonical(naan, name);
    assert s[0] == 'a' && s[|s| - 1] == name[|name| - 1];
    StripKeeps(s);
    ParseIsExact(s, naan, name);
  }
}
