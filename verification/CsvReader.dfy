/** Reading the import file: every row is classified once, before any write. */
module CsvReader {
  import opened Wrappers
  import opened ArkIdentifiers
  import Text

  datatype Raw = Raw(identifier: string, url: string)

  datatype ImportRow = ImportRow(number: nat, identifier: string, url: string, naan: string, name: string)

  datatype RowError = NotAnArk(error: ParseError) | BadUrl | Duplicate(first: nat)

  datatype InvalidRow = InvalidRow(number: nat, identifier: string, url: string, error: RowError)

  datatype ReadError = MissingColumns

  type Key = (string, string)

  /** What the rows before position `n` leave behind: importable rows, rejected rows, and first occurrences. */
  datatype Read = Read(rows: seq<ImportRow>, invalid: seq<InvalidRow>, seen: map<Key, nat>)

  function KeyOf(row: ImportRow): Key { (row.naan, row.name) }

  function Classify(seen: map<Key, nat>, raw: Raw, number: nat, validUrl: string -> bool): Result<ImportRow, InvalidRow>
  {
    var identifier, url := Text.Strip(raw.identifier), Text.Strip(raw.url);
    match ParseArk(identifier)
    case Err(e) => Err(InvalidRow(number, identifier, url, NotAnArk(e)))
    case Ok(key) =>
      if !validUrl(url) then Err(InvalidRow(number, identifier, url, BadUrl))
      else if key in seen then Err(InvalidRow(number, identifier, url, Duplicate(seen[key])))
      else Ok(ImportRow(number, Canonical(key.0, key.1), url, key.0, key.1))
  }

  function ReadRow(r: Read, raw: Raw, number: nat, validUrl: string -> bool): Read {
    match Classify(r.seen, raw, number, validUrl)
    case Ok(row) => r.(rows := r.rows + [row], seen := r.seen[KeyOf(row) := number])
    case Err(bad) => r.(invalid := r.invalid + [bad])
  }

  /** Row numbers start at 2, below the header. */
  function ReadUpTo(raws: seq<Raw>, n: nat, validUrl: string -> bool): Read
    requires n <= |raws|
  {
    if n == 0 then Read([], [], map[]) else ReadRow(ReadUpTo(raws, n - 1, validUrl), raws[n - 1], n + 1, validUrl)
  }

  function Taken(count: nat, limit: Option<int>): (n: nat)
    ensures n <= count
  {
    if limit.None? || limit.value >= count then count else if limit.value <= 0 then 0 else limit.value
  }

  /** The limit bounds the rows that are read; a negative one reads none, and none at all is no bound. */
  lemma TakenMeans(count: nat, limit: Option<int>)
    ensures limit.None? ==> Taken(count, limit) == count
    ensures limit.Some? && limit.value < 0 ==> Taken(count, limit) == 0
    ensures limit.Some? && limit.value >= 0 ==>
              Taken(count, limit) <= limit.value && (Taken(count, limit) == limit.value || Taken(count, limit) == count)
  {
  }

  /** The body of the loop up to the two appends. */
  method ReadOne(seen: map<Key, nat>, raw: Raw, number: nat, validUrl: string -> bool)
    returns (row: Result<ImportRow, InvalidRow>)
    ensures row == Classify(seen, raw, number, validUrl)
  {
    hide Text.Strip, ParseArk;
    var identifier, url := Text.Strip(raw.identifier), Text.Strip(raw.url);
    var parsed := ParseArk(identifier);
    if parsed.Err? { return Err(InvalidRow(number, identifier, url, NotAnArk(parsed.error))); }
    if !validUrl(url) { return Err(InvalidRow(number, identifier, url, BadUrl)); }
    var (naan, name) := parsed.value;
    if (naan, name) in seen { return Err(InvalidRow(number, identifier, url, Duplicate(seen[(naan, name)]))); }
    return Ok(ImportRow(number, Canonical(naan, name), url, naan, name));
  }

  method ReadRows(raws: seq<Raw>, limit: Option<int>, validUrl: string -> bool)
    returns (rows: seq<ImportRow>, invalid: seq<InvalidRow>)
    ensures var r := ReadUpTo(raws, Taken(|raws|, limit), validUrl); rows == r.rows && invalid == r.invalid
  {
    hide Classify;
    rows, invalid := [], [];
    var seen: map<Key, nat> := map[];
    var i := 0;
    while i < |raws|
      invariant 0 <= i <= |raws| && |rows| + |invalid| == i
      invariant limit.Some? && i > 0 ==> i <= limit.value
      invariant Read(rows, invalid, seen) == ReadUpTo(raws, i, validUrl)
    {
      if limit.Some? && |rows| + |invalid| >= limit.value { break; }
      var row := ReadOne(seen, raws[i], i + 2, validUrl);
      match row {
        case Ok(row) =>
          seen := seen[KeyOf(row) := i + 2];
          rows := rows + [row];
        case Err(bad) =>
          invalid := invalid + [bad];
      }
      i := i + 1;
    }
  }

  const REQUIRED: set<string> := {"darkidentifier", "itemurl"}

  method ReadCsv(columns: set<string>, raws: seq<Raw>, limit: Option<int>, validUrl: string -> bool)
    returns (result: Result<(seq<ImportRow>, seq<InvalidRow>), ReadError>)
    ensures result.Err? <==> !(REQUIRED <= columns)
    ensures result.Ok? ==> var r := ReadUpTo(raws, Taken(|raws|, limit), validUrl); result.value == (r.rows, r.invalid)
  {
    if !(REQUIRED <= columns) { return Err(MissingColumns); }
    var rows, invalid := ReadRows(raws, limit, validUrl);
    return Ok((rows, invalid));
  }

  // ---------- what reading guarantees ----------

  /** The ARK and URL of a raw row, if it has usable ones. */
  function Candidate(raw: Raw, validUrl: string -> bool): Option<Key> {
    var parsed := ParseArk(Text.Strip(raw.identifier));
    if parsed.Ok? && validUrl(Text.Strip(raw.url)) then Some(parsed.value) else None
  }

  /** Row `i` names a usable ARK that no usable row before it names. */
  ghost predicate First(raws: seq<Raw>, i: nat, validUrl: string -> bool)
    requires i < |raws|
  {
    var c := Candidate(raws[i], validUrl);
    c.Some? && forall j :: 0 <= j < i ==> Candidate(raws[j], validUrl) != c
  }

  ghost predicate Importable(row: ImportRow) {
    WellFormed(row.naan, row.name) && row.identifier == Canonical(row.naan, row.name)
  }

  /** `seen` holds exactly the usable ARKs met so far, each with the number of its first row. */
  ghost predicate SeenMeans(seen: map<Key, nat>, raws: seq<Raw>, n: nat, validUrl: string -> bool)
    requires n <= |raws|
  {
    && (forall i :: 0 <= i < n && Candidate(raws[i], validUrl).Some? ==> Candidate(raws[i], validUrl).value in seen)
    && (forall key :: key in seen ==>
          2 <= seen[key] < n + 2 && Candidate(raws[seen[key] - 2], validUrl) == Some(key)
          && First(raws, seen[key] - 2, validUrl))
  }

  /**
   * A row is accepted exactly when it has a candidate that is not yet seen, which it then carries in canonical form.
   */
  lemma ClassifyMeans(seen: map<Key, nat>, raw: Raw, number: nat, validUrl: string -> bool)
    ensures var c := Candidate(raw, validUrl);
            match Classify(seen, raw, number, validUrl)
            case Ok(row) =>
              && c == Some(KeyOf(row)) && KeyOf(row) !in seen && Importable(row)
              && row.number == number && row.url == Text.Strip(raw.url)
            case Err(bad) => (c.Some? ==> c.value in seen) && bad.number == number
  {
    var identifier := Text.Strip(raw.identifier);
    var parsed := ParseArk(identifier);
    if parsed.Ok? {
      ParseIsExact(identifier, parsed.value.0, parsed.value.1);
    }
    hide ParseArk, Canonical, WellFormed, Text.Strip;
  }

  lemma SeenGrows(seen: map<Key, nat>, raws: seq<Raw>, n: nat, validUrl: string -> bool, key: Key)
    requires n < |raws| && SeenMeans(seen, raws, n, validUrl) && Candidate(raws[n], validUrl) == Some(key)
             && key !in seen
    ensures SeenMeans(seen[key := n + 2], raws, n + 1, validUrl)
  {
    hide Candidate;
  }

  lemma SeenStays(seen: map<Key, nat>, raws: seq<Raw>, n: nat, validUrl: string -> bool)
    requires n < |raws| && SeenMeans(seen, raws, n, validUrl)
    requires Candidate(raws[n], validUrl).Some? ==> Candidate(raws[n], validUrl).value in seen
    ensures SeenMeans(seen, raws, n + 1, validUrl)
  {
    hide Candidate;
  }

  lemma SeenStep(before: Read, raws: seq<Raw>, n: nat, validUrl: string -> bool)
    requires n < |raws| && SeenMeans(before.seen, raws, n, validUrl)
    ensures SeenMeans(ReadRow(before, raws[n], n + 2, validUrl).seen, raws, n + 1, validUrl)
  {
    hide Classify, Candidate, SeenMeans, Importable;
    ClassifyMeans(before.seen, raws[n], n + 2, validUrl);
    match Classify(before.seen, raws[n], n + 2, validUrl) {
      case Ok(row) => SeenGrows(before.seen, raws, n, validUrl, KeyOf(row));
      case Err(_) => SeenStays(before.seen, raws, n, validUrl);
    }
  }

  lemma NothingSeen(raws: seq<Raw>, validUrl: string -> bool)
    ensures SeenMeans(map[], raws, 0, validUrl)
  {
    hide Candidate;
  }

  lemma {:induction false} SeenIsFirst(raws: seq<Raw>, n: nat, validUrl: string -> bool)
    requires n <= |raws|
    ensures SeenMeans(ReadUpTo(raws, n, validUrl).seen, raws, n, validUrl)
    decreases n
  {
    hide ReadRow, SeenMeans;
    if n == 0 {
      NothingSeen(raws, validUrl);
    } else {
      SeenIsFirst(raws, n - 1, validUrl);
      SeenStep(ReadUpTo(raws, n - 1, validUrl), raws, n - 1, validUrl);
    }
  }

  /** Row `i` is imported exactly when it is the first usable row for its ARK, under its own number and URL. */
  lemma RowClassified(raws: seq<Raw>, i: nat, validUrl: string -> bool)
    requires i < |raws|
    ensures var before, after := ReadUpTo(raws, i, validUrl), ReadUpTo(raws, i + 1, validUrl);
            if First(raws, i, validUrl) then
              && after.invalid == before.invalid && |after.rows| == |before.rows| + 1
              && after.rows[..|before.rows|] == before.rows
              && (var row := after.rows[|before.rows|];
                  Candidate(raws[i], validUrl) == Some(KeyOf(row)) && row.number == i + 2
                    && row.url == Text.Strip(raws[i].url))
            else
              && after.rows == before.rows && |after.invalid| == |before.invalid| + 1
              && after.invalid[..|before.invalid|] == before.invalid && after.invalid[|before.invalid|].number == i + 2
  {
    hide Classify, Candidate, Importable, Text.Strip;
    SeenIsFirst(raws, i, validUrl);
    ClassifyMeans(ReadUpTo(raws, i, validUrl).seen, raws[i], i + 2, validUrl);
  }

  /**
   * Imported and rejected rows partition what was read, and the imported ARKs are distinct, canonical and well formed.
   */
  lemma {:induction false} ReadPartition(raws: seq<Raw>, n: nat, validUrl: string -> bool)
    requires n <= |raws|
    ensures var r := ReadUpTo(raws, n, validUrl);
            && |r.rows| + |r.invalid| == n
            && (forall k :: 0 <= k < |r.rows| ==> Importable(r.rows[k]) && KeyOf(r.rows[k]) in r.seen)
            && (forall k, m :: 0 <= k < m < |r.rows| ==> KeyOf(r.rows[k]) != KeyOf(r.rows[m]))
  {
    hide Classify, Candidate, Importable, Text.Strip;
    if n > 0 {
      ReadPartition(raws, n - 1, validUrl);
      ClassifyMeans(ReadUpTo(raws, n - 1, validUrl).seen, raws[n - 1], n + 1, validUrl);
    }
  }
}
