/** The candidate resolvers: each turns the user's criteria into the list of CONTATOS_ID
    values the enrichment stage will process. Lists, not sets: repeated ids survive. A
    missing database file always raises, because the connection is opened before any
    `try`; a missing table raises or yields `[]` depending on whether the resolver's `try`
    has an `except`. */
module Resolvers {
  import opened PyText
  import opened Batches
  import opened Store
  import opened Occupation

  // ----- Composition of partial results -----

  /** Run `a`, then `b`: the first exception wins, otherwise the lists are concatenated. */
  function Then(a: Result<seq<int>>, b: Result<seq<int>>): Result<seq<int>>
  {
    if a.Raised? then a else if b.Raised? then b else Ok(a.value + b.value)
  }

  lemma ThenAssoc(a: Result<seq<int>>, b: Result<seq<int>>, c: Result<seq<int>>)
    ensures Then(Then(a, b), c) == Then(a, Then(b, c))
  {
    if a.Ok? && b.Ok? && c.Ok? {
      assert (a.value + b.value) + c.value == a.value + (b.value + c.value);
    }
  }

  lemma ThenUnit(a: Result<seq<int>>)
    ensures Then(Ok([]), a) == a
  {
    if a.Ok? {
      assert [] + a.value == a.value;
    }
  }

  // ----- The death-date test `re.search(r'\b(19[0-9]{2}|20[0-2][0-4])\b', DT_OB)` -----

  /** Python's `\w` on the Latin-1 range: letters, digits (the superscripts and
      fractions count as digits) and the underscore. */
  predicate IsWordChar(c: char)
  {
    var k := c as int;
    || 'a' <= c <= 'z' || 'A' <= c <= 'Z' || IsDigit(c) || c == '_'
    || k == 0xAA || k == 0xB2 || k == 0xB3 || k == 0xB5 || k == 0xB9 || k == 0xBA
    || 0xBC <= k <= 0xBE || 0xC0 <= k <= 0xD6 || 0xD8 <= k <= 0xF6 || 0xF8 <= k <= 0xFF
  }

  /** The four characters at `i` read `19dd` or `20[0-2][0-4]`. */
  predicate YearAt(s: string, i: nat)
    requires i + 4 <= |s|
  {
    || (s[i] == '1' && s[i + 1] == '9' && IsDigit(s[i + 2]) && IsDigit(s[i + 3]))
    || (s[i] == '2' && s[i + 1] == '0' && '0' <= s[i + 2] <= '2' && '0' <= s[i + 3] <= '4')
  }

  /** A match of the death pattern at offset `i`: the year token with a word boundary on
      each side (string ends count as non-word). */
  predicate DeathYearAt(s: string, i: int)
  {
    && 0 <= i && i + 4 <= |s|
    && YearAt(s, i)
    && (i == 0 || !IsWordChar(s[i - 1]))
    && (i + 4 == |s| || !IsWordChar(s[i + 4]))
  }

  /** `re.search` finds the pattern somewhere in the text. */
  ghost predicate HasDeathYear(s: string)
  {
    exists i :: DeathYearAt(s, i)
  }

  /** Left-to-right scan for a match starting at `i` or later. */
  function DeathYearFrom(s: string, i: nat): bool
    requires i <= |s|
    decreases |s| - i
  {
    if i + 4 > |s| then false else DeathYearAt(s, i) || DeathYearFrom(s, i + 1)
  }

  lemma {:induction false} DeathYearFromSpec(s: string, i: nat)
    requires i <= |s|
    ensures DeathYearFrom(s, i) <==> exists j :: i <= j && DeathYearAt(s, j)
    decreases |s| - i
  {
    if i + 4 <= |s| {
      DeathYearFromSpec(s, i + 1);
      if exists j :: i <= j && DeathYearAt(s, j) {
        var j :| i <= j && DeathYearAt(s, j);
        if j != i {
          assert i + 1 <= j;
        }
      }
    }
  }

  /** The scan the model runs is the regular-expression search. */
  lemma DeathYearScan(s: string)
    ensures DeathYearFrom(s, 0) <==> HasDeathYear(s)
  {
    DeathYearFromSpec(s, 0);
  }

  /** The pattern's second branch stops at 2024 and skips 2005-2009 and 2015-2019: a death
      recorded in 2005 is not recognised, one in 2004 is, and a year glued to other digits
      is not. */
  lemma DeathYearExamples()
    ensures !HasDeathYear("2005-03-01")
    ensures !HasDeathYear("2019")
    ensures HasDeathYear("2004-03-01")
    ensures HasDeathYear("01/02/1987")
    ensures !HasDeathYear("19870102")
  {
    DeathYearScan("2005-03-01");
    DeathYearScan("2019");
    DeathYearScan("19870102");
    assert DeathYearAt("2004-03-01", 0);
    assert DeathYearAt("01/02/1987", 6);
  }

  // ----- The age, sex and death filter on one contact -----

  /** What the loop body does with one fetched contact: keep its id, skip it, or let a
      TypeError escape (`len()` of a number in NASC, `re.search` on a number in DT_OB). */
  datatype Verdict = Keep | Skip | Fail

  /** The sex rule: an exact "M"/"F" match, or a filter of "" or "Ambos" accepting all. */
  predicate SexAccepted(rowSex: Cell, sexo: string)
  {
    ((sexo == "M" || sexo == "F") && rowSex == Text(sexo)) || sexo == "" || sexo == "Ambos"
  }

  function BirthAndSex(y: int, rowSex: Cell, sexo: string, year: int): Verdict
  {
    if y < year && SexAccepted(rowSex, sexo) then Keep else Skip
  }

  /** The body of the inner loop of `fetch_contatos_by_age_and_location` on one row. */
  function AgeVerdict(c: ContactRow, sexo: string, year: int): Verdict
  {
    match c.nasc
    case Null => Skip
    case Num(n) => if n == 0 then Skip else Fail
    case Text(t) =>
      if |t| < 4 then Skip
      else match PyInt(t[..4])
        case None => Skip
        case Some(y) =>
          match c.dtOb
          case Null => BirthAndSex(y, c.sexo, sexo, year)
          case Num(d) => if d == 0 then BirthAndSex(y, c.sexo, sexo, year) else Fail
          case Text(d) => if d != [] && DeathYearFrom(d, 0) then Skip else BirthAndSex(y, c.sexo, sexo, year)
  }

  /** DT_OB is empty (NULL, 0 or "") or holds no recognised death year. */
  ghost predicate AliveByRecord(d: Cell)
  {
    d == Null || d == Num(0) || (d.Text? && !HasDeathYear(d.s))
  }

  /** The year NASC yields: its first four characters as Python's `int()` reads them,
      None when NASC is not text of at least four characters or they do not parse. */
  function BirthYear(nasc: Cell): Option<int>
  {
    if nasc.Text? && |nasc.s| >= 4 then PyInt(nasc.s[..4]) else None
  }

  /** A contact is kept exactly when NASC has at least four characters whose integer
      value is below `year`, DT_OB records no death year, and the sex rule accepts it. */
  lemma AgeKeepIff(c: ContactRow, sexo: string, year: int)
    ensures AgeVerdict(c, sexo, year) == Keep <==>
      BirthYear(c.nasc).Some? && BirthYear(c.nasc).value < year && AliveByRecord(c.dtOb) && SexAccepted(c.sexo, sexo)
  {
    if c.dtOb.Text? {
      DeathYearScan(c.dtOb.s);
    }
  }

  /** The loop raises exactly on a nonzero number in NASC, or on a readable NASC with a
      nonzero number in DT_OB. */
  lemma AgeFailIff(c: ContactRow, sexo: string, year: int)
    ensures AgeVerdict(c, sexo, year) == Fail <==>
      (c.nasc.Num? && c.nasc.n != 0) ||
      (BirthYear(c.nasc).Some? && c.dtOb.Num? && c.dtOb.n != 0)
  {
  }

  // ----- fetch_contatos_by_age_and_location -----

  /** The loop over one batch's fetched rows. */
  function AgeRows(leads: seq<ContactRow>, sexo: string, year: int): Result<seq<int>>
  {
    if leads == [] then Ok([])
    else
      match AgeVerdict(leads[0], sexo, year)
      case Fail => Raised(TypeError)
      case Skip => AgeRows(leads[1..], sexo, year)
      case Keep => Then(Ok([leads[0].id]), AgeRows(leads[1..], sexo, year))
  }

  /** `SELECT ... FROM SRS_CONTATOS WHERE CONTATOS_ID IN (batch)`, in table order. */
  function InBatch(rows: seq<ContactRow>, batch: seq<int>): (r: seq<ContactRow>)
    ensures forall c :: c in r <==> c in rows && c.id in batch
  {
    if rows == [] then []
    else
      var rest := InBatch(rows[..|rows| - 1], batch);
      var c := rows[|rows| - 1];
      assert rows == rows[..|rows| - 1] + [c];
      if c.id in batch then rest + [c] else rest
  }

  function AgeBatches(batches: seq<seq<int>>, rows: seq<ContactRow>, sexo: string, year: int): Result<seq<int>>
  {
    if batches == [] then Ok([])
    else Then(AgeRows(InBatch(rows, batches[0]), sexo, year), AgeBatches(batches[1..], rows, sexo, year))
  }

  /** Stage one of the age resolver: ids with an address in the city and state. */
  function CityIds(addresses: seq<AddressRow>, uf: string, city: string): seq<int>
  {
    AddressIds(addresses, AddressQuery(Some(uf), Some(city), None, None))
  }

  /** `fetch_contatos_by_age_and_location`. Contatos.db is opened only when stage one
      found someone. */
  function AgeSpec(uf: string, city: string, sexo: string, year: int, addresses: Db<AddressRow>, contacts: Db<ContactRow>): Result<seq<int>>
  {
    if addresses.NoFile? then Raised(FileNotFound)
    else if addresses.NoTable? then Raised(TableMissing)
    else
      var stage := CityIds(addresses.rows, uf, city);
      if stage == [] then Ok([])
      else if contacts.NoFile? then Raised(FileNotFound)
      else if contacts.NoTable? then Raised(TableMissing)
      else AgeBatches(Chunks(stage, QueryBatch), contacts.rows, sexo, year)
  }

  lemma {:induction false} AgeRowsSpec(leads: seq<ContactRow>, sexo: string, year: int)
    ensures AgeRows(leads, sexo, year).Raised? <==> exists c :: c in leads && AgeVerdict(c, sexo, year) == Fail
    ensures AgeRows(leads, sexo, year).Ok? ==> forall x :: x in AgeRows(leads, sexo, year).value <==>
      exists c :: c in leads && AgeVerdict(c, sexo, year) == Keep && c.id == x
  {
    if leads != [] {
      AgeRowsSpec(leads[1..], sexo, year);
      assert leads == [leads[0]] + leads[1..];
      forall c | c in leads
        ensures c == leads[0] || c in leads[1..]
      {
      }
    }
  }

  /** Some batch holds the contact's id. */
  predicate InBatches(batches: seq<seq<int>>, c: ContactRow)
  {
    exists b :: b in batches && c.id in b
  }

  lemma InBatchesStep(batches: seq<seq<int>>, c: ContactRow)
    requires batches != []
    ensures InBatches(batches, c) <==> c.id in batches[0] || InBatches(batches[1..], c)
  {
    assert batches == [batches[0]] + batches[1..];
    if InBatches(batches, c) {
      var b :| b in batches && c.id in b;
      if b != batches[0] {
        assert b in batches[1..];
      }
    }
    if InBatches(batches[1..], c) {
      var b :| b in batches[1..] && c.id in b;
      assert b in batches;
    }
  }

  lemma AgeBatchesSpec(batches: seq<seq<int>>, rows: seq<ContactRow>, sexo: string, year: int)
    ensures AgeBatches(batches, rows, sexo, year).Raised? <==>
      exists c :: c in rows && InBatches(batches, c) && AgeVerdict(c, sexo, year) == Fail
    ensures AgeBatches(batches, rows, sexo, year).Ok? ==> forall x :: x in AgeBatches(batches, rows, sexo, year).value <==>
      exists c :: c in rows && InBatches(batches, c) && AgeVerdict(c, sexo, year) == Keep && c.id == x
  {
    AgeBatchesRaise(batches, rows, sexo, year);
    AgeBatchesKeep(batches, rows, sexo, year);
  }

  lemma {:induction false} AgeBatchesRaise(batches: seq<seq<int>>, rows: seq<ContactRow>, sexo: string, year: int)
    ensures AgeBatches(batches, rows, sexo, year).Raised? <==>
      exists c :: c in rows && InBatches(batches, c) && AgeVerdict(c, sexo, year) == Fail
  {
    if batches != [] {
      var b0 := batches[0];
      AgeBatchesRaise(batches[1..], rows, sexo, year);
      AgeRowsSpec(InBatch(rows, b0), sexo, year);
      forall c | c in rows
        ensures InBatches(batches, c) <==> c in InBatch(rows, b0) || InBatches(batches[1..], c)
      {
        InBatchesStep(batches, c);
      }
    }
  }

  lemma {:induction false} AgeBatchesKeep(batches: seq<seq<int>>, rows: seq<ContactRow>, sexo: string, year: int)
    ensures AgeBatches(batches, rows, sexo, year).Ok? ==> forall x :: x in AgeBatches(batches, rows, sexo, year).value <==>
      exists c :: c in rows && InBatches(batches, c) && AgeVerdict(c, sexo, year) == Keep && c.id == x
  {
    if batches != [] {
      var b0 := batches[0];
      AgeBatchesKeep(batches[1..], rows, sexo, year);
      AgeRowsSpec(InBatch(rows, b0), sexo, year);
      forall c | c in rows
        ensures InBatches(batches, c) <==> c in InBatch(rows, b0) || InBatches(batches[1..], c)
      {
        InBatchesStep(batches, c);
      }
    }
  }

  /** With both tables present and someone in the city: the resolver raises exactly when
      some fetched contact trips the TypeError, and otherwise returns exactly the ids of
      the contacts in the city that the age/sex/death filter keeps. */
  lemma AgeSpecMembership(uf: string, city: string, sexo: string, year: int, addresses: seq<AddressRow>, contacts: seq<ContactRow>)
    ensures var r := AgeSpec(uf, city, sexo, year, Table(addresses), Table(contacts));
      var stage := CityIds(addresses, uf, city);
      && (r.Raised? <==> exists c :: c in contacts && c.id in stage && AgeVerdict(c, sexo, year) == Fail)
      && (r.Ok? ==> forall x :: x in r.value <==>
           exists c :: c in contacts && c.id in stage && AgeVerdict(c, sexo, year) == Keep && c.id == x)
  {
    var stage := CityIds(addresses, uf, city);
    var cs := Chunks(stage, QueryBatch);
    if stage != [] {
      AgeBatchesSpec(cs, contacts, sexo, year);
      forall c | c in contacts
        ensures c.id in stage <==> InBatches(cs, c)
      {
        InSomeChunk(stage, QueryBatch, c.id);
      }
    }
  }

  /** An unknown city short-circuits: nothing is returned and Contatos.db is never
      opened, so even a missing contacts file goes unnoticed. */
  lemma AgeEmptyStage(uf: string, city: string, sexo: string, year: int, addresses: seq<AddressRow>, contacts: Db<ContactRow>)
    requires forall a :: a in addresses ==> a.uf != Text(uf) || a.cidade != Text(city)
    ensures AgeSpec(uf, city, sexo, year, Table(addresses), contacts) == Ok([])
  {
  }

  /** The inner loop of `fetch_contatos_by_age_and_location` over the rows one batch
      fetched: append each kept id, skip the rest, stop at the first TypeError. */
  method FilterLeads(leads: seq<ContactRow>, sexo: string, year: int) returns (r: Result<seq<int>>)
    ensures r == AgeRows(leads, sexo, year)
  {
    var kept: seq<int> := [];
    var k := 0;
    ThenUnit(AgeRows(leads, sexo, year));
    while k < |leads|
      invariant 0 <= k <= |leads|
      invariant Then(Ok(kept), AgeRows(leads[k..], sexo, year)) == AgeRows(leads, sexo, year)
    {
      var lead := leads[k];
      assert leads[k..][0] == lead && leads[k..][1..] == leads[k + 1..];
      ghost var rest := AgeRows(leads[k + 1..], sexo, year);
      var verdict := AgeVerdict(lead, sexo, year);
      if verdict == Fail {
        return Raised(TypeError);
      } else if verdict == Keep {
        ThenAssoc(Ok(kept), Ok([lead.id]), rest);
        kept := kept + [lead.id];
      }
      k := k + 1;
    }
    assert leads[k..] == [];
    assert kept + [] == kept;
    return Ok(kept);
  }

  /** One step of the batch walk: the batch starting at `i`, then the batches after it. */
  lemma AgeBatchesStep(stage: seq<int>, i: nat, rows: seq<ContactRow>, sexo: string, year: int)
    requires i < |stage|
    ensures AgeBatches(Chunks(stage[i..], QueryBatch), rows, sexo, year) ==
      Then(AgeRows(InBatch(rows, stage[i..Min(i + QueryBatch, |stage|)]), sexo, year),
           AgeBatches(Chunks(stage[Min(i + QueryBatch, |stage|)..], QueryBatch), rows, sexo, year))
  {
    var j := Min(i + QueryBatch, |stage|);
    assert stage[i..][..j - i] == stage[i..j] && stage[i..][j - i..] == stage[j..];
  }

  /** `fetch_contatos_by_age_and_location`: stage one, then for every batch of at most
      999 ids the fetched rows go through the inner loop. */
  method ResolveByAge(uf: string, city: string, sexo: string, year: int, addresses: Db<AddressRow>, contacts: Db<ContactRow>)
    returns (r: Result<seq<int>>)
    ensures r == AgeSpec(uf, city, sexo, year, addresses, contacts)
  {
    if addresses.NoFile? { return Raised(FileNotFound); }
    if addresses.NoTable? { return Raised(TableMissing); }
    var stage := CityIds(addresses.rows, uf, city);
    if stage == [] { return Ok([]); }
    if contacts.NoFile? { return Raised(FileNotFound); }
    if contacts.NoTable? { return Raised(TableMissing); }
    ghost var total := AgeBatches(Chunks(stage, QueryBatch), contacts.rows, sexo, year);
    var valid: seq<int> := [];
    var i := 0;
    assert stage[i..] == stage;
    ThenUnit(total);
    while i < |stage|
      invariant 0 <= i <= |stage|
      invariant Then(Ok(valid), AgeBatches(Chunks(stage[i..], QueryBatch), contacts.rows, sexo, year)) == total
    {
      var j := Min(i + QueryBatch, |stage|);
      var batch := stage[i..j];
      AgeBatchesStep(stage, i, contacts.rows, sexo, year);
      ghost var later := AgeBatches(Chunks(stage[j..], QueryBatch), contacts.rows, sexo, year);
      var leads := InBatch(contacts.rows, batch);
      var kept := FilterLeads(leads, sexo, year);
      ThenAssoc(Ok(valid), kept, later);
      if kept.Raised? {
        return kept;
      }
      valid := valid + kept.value;
      i := j;
    }
    assert stage[i..] == [];
    assert valid + [] == valid;
    return Ok(valid);
  }

  // ----- fetch_contatos_by_names -----

  function TextCells(ss: seq<string>): (r: seq<Cell>)
    ensures |r| == |ss|
    ensures forall c :: c in r <==> c.Text? && c.s in ss
  {
    if ss == [] then []
    else
      assert ss == [ss[0]] + ss[1..];
      [Text(ss[0])] + TextCells(ss[1..])
  }

  /** `fetch_contatos_by_names`: the names are the file's lines, None when the file cannot
      be read. A missing table or an unreadable file gives `[]`. */
  function NamesSpec(names: Option<seq<string>>, uf: string, contacts: Db<ContactRow>): Result<seq<int>>
  {
    if contacts.NoFile? then Raised(FileNotFound)
    else if contacts.NoTable? || names.None? then Ok([])
    else Ok(ScanBatches(Chunks(TextCells(names.value), QueryBatch), contacts.rows, ContactName, ContactUf, [Text(uf)], ContactId))
  }

  /** An id comes back exactly when its contact row carries one of the listed names and
      the requested issuing state. */
  lemma NamesMembership(names: seq<string>, uf: string, contacts: seq<ContactRow>, x: int)
    ensures NamesSpec(Some(names), uf, Table(contacts)).Ok?
    ensures x in NamesSpec(Some(names), uf, Table(contacts)).value <==>
      exists c :: c in contacts && c.nome.Text? && c.nome.s in names && c.ufEmissao == Text(uf) && c.id == x
  {
    ChunkedScanMembership(TextCells(names), contacts, ContactName, ContactUf, [Text(uf)], ContactId, x);
  }

  /** The names query for one batch binds the batch plus the UF. */
  function NamesParams(batch: seq<Cell>): nat
  {
    BoundParams(batch, 1)
  }

  /** A names file of 999 lines or more makes the first query bind 1000 parameters, one
      over the ceiling the code's comment cites. */
  lemma NamesFirstBatchOverflows(names: seq<string>)
    requires |names| >= QueryBatch
    ensures |Chunks(TextCells(names), QueryBatch)| >= 1
    ensures NamesParams(Chunks(TextCells(names), QueryBatch)[0]) == ParamLimit + 1
  {
    FullBatchOverflows(TextCells(names), 1);
    MaxBoundParams(TextCells(names), 1);
  }

  method ResolveByNames(names: Option<seq<string>>, uf: string, contacts: Db<ContactRow>) returns (r: Result<seq<int>>)
    ensures r == NamesSpec(names, uf, contacts)
  {
    if contacts.NoFile? { return Raised(FileNotFound); }
    if contacts.NoTable? || names.None? { return Ok([]); }
    var valid := RunBatches(TextCells(names.value), contacts.rows, ContactName, ContactUf, [Text(uf)], ContactId);
    return Ok(valid);
  }

  // ----- The income and risk resolvers -----

  /** `neighborhood.upper() == "CENTRO"` selects the city-wide first stage. */
  predicate IsCentro(neighborhood: string)
  {
    UpperStr(neighborhood) == "CENTRO"
  }

  /** Stage one: by CIDADE alone for "CENTRO", by BAIRRO alone otherwise; the UF plays no
      part. */
  function StageOneQuery(city: string, neighborhood: string): AddressQuery
  {
    if IsCentro(neighborhood) then AddressQuery(None, Some(city), None, None)
    else AddressQuery(None, None, Some(neighborhood), None)
  }

  /** `SELECT CONTATOS_ID ... WHERE CONTATOS_ID = ? AND CIDADE = ?` finds a row. */
  predicate HasCityRow(rows: seq<AddressRow>, x: int, city: string)
  {
    exists a :: a in rows && a.id == x && a.cidade == Text(city)
  }

  /** The per-id re-check: stage-one ids that have an address row in the city, in order
      and with their repetitions. */
  function CityRecheck(ids: seq<int>, rows: seq<AddressRow>, city: string): (r: seq<int>)
    ensures forall x :: x in r <==> x in ids && HasCityRow(rows, x, city)
  {
    if ids == [] then []
    else
      var rest := CityRecheck(ids[..|ids| - 1], rows, city);
      var x := ids[|ids| - 1];
      assert ids == ids[..|ids| - 1] + [x];
      if HasCityRow(rows, x, city) then rest + [x] else rest
  }

  /** The shared shape of the income and risk resolvers over a band table of rows `R`. */
  function BandSpec<R>(city: string, neighborhood: string, band: string, addresses: Db<AddressRow>, bands: Db<R>, id: R -> int, attr: R -> Cell): Result<seq<int>>
  {
    if addresses.NoFile? || bands.NoFile? then Raised(FileNotFound)
    else if addresses.NoTable? || bands.NoTable? then Raised(TableMissing)
    else
      var stage := AddressIds(addresses.rows, StageOneQuery(city, neighborhood));
      var filtered := CityRecheck(stage, addresses.rows, city);
      if stage == [] || filtered == [] then Ok([])
      else Ok(ScanBatches(Chunks(filtered, QueryBatch), bands.rows, id, attr, [Text(band)], id))
  }

  /** With both tables present an id is returned exactly when it passes stage one (city
      for "CENTRO", neighbourhood otherwise), has an address row in the city, and has a
      band-table row carrying the requested band; an empty stage gives `[]`. */
  lemma BandMembership<R>(city: string, neighborhood: string, band: string, addresses: seq<AddressRow>, bands: seq<R>, id: R -> int, attr: R -> Cell, x: int)
    ensures BandSpec(city, neighborhood, band, Table(addresses), Table(bands), id, attr).Ok?
    ensures x in BandSpec(city, neighborhood, band, Table(addresses), Table(bands), id, attr).value <==>
      && (exists a :: a in addresses && a.id == x &&
            (if IsCentro(neighborhood) then a.cidade == Text(city) else a.bairro == Text(neighborhood)))
      && HasCityRow(addresses, x, city)
      && (exists r :: r in bands && id(r) == x && attr(r) == Text(band))
  {
    var stage := AddressIds(addresses, StageOneQuery(city, neighborhood));
    var filtered := CityRecheck(stage, addresses, city);
    BandStage(city, neighborhood, addresses, x);
    ChunkedScanMembership(filtered, bands, id, attr, [Text(band)], id, x);
  }

  /** Stage one keeps the ids with a row in the city ("CENTRO") or in the neighbourhood. */
  lemma BandStage(city: string, neighborhood: string, addresses: seq<AddressRow>, x: int)
    ensures x in AddressIds(addresses, StageOneQuery(city, neighborhood)) <==>
      exists a :: a in addresses && a.id == x &&
        (if IsCentro(neighborhood) then a.cidade == Text(city) else a.bairro == Text(neighborhood))
  {
    var q := StageOneQuery(city, neighborhood);
    forall a | a in addresses
      ensures AddressMatches(a, q) <==> (if IsCentro(neighborhood) then a.cidade == Text(city) else a.bairro == Text(neighborhood))
    {
    }
  }

  function IncomeSpec(city: string, neighborhood: string, band: string, addresses: Db<AddressRow>, contacts: Db<ContactRow>): Result<seq<int>>
  {
    BandSpec(city, neighborhood, band, addresses, contacts, ContactId, ContactIncome)
  }

  function RiskSpec(city: string, neighborhood: string, band: string, addresses: Db<AddressRow>, scores: Db<ScoreRow>): Result<seq<int>>
  {
    BandSpec(city, neighborhood, band, addresses, scores, ScoreId, ScoreBand)
  }

  /** Both files are opened first, then both tables checked, then stage one, the per-id
      city re-check loop and the batched band query. */
  method ResolveByBand<R>(city: string, neighborhood: string, band: string, addresses: Db<AddressRow>, bands: Db<R>, id: R -> int, attr: R -> Cell)
    returns (r: Result<seq<int>>)
    ensures r == BandSpec(city, neighborhood, band, addresses, bands, id, attr)
  {
    if addresses.NoFile? || bands.NoFile? { return Raised(FileNotFound); }
    if addresses.NoTable? || bands.NoTable? { return Raised(TableMissing); }
    var stage := AddressIds(addresses.rows, StageOneQuery(city, neighborhood));
    if stage == [] { return Ok([]); }
    var filtered: seq<int> := [];
    var k := 0;
    while k < |stage|
      invariant 0 <= k <= |stage|
      invariant filtered == CityRecheck(stage[..k], addresses.rows, city)
    {
      assert stage[..k + 1][..k] == stage[..k];
      if HasCityRow(addresses.rows, stage[k], city) {
        filtered := filtered + [stage[k]];
      }
      k := k + 1;
    }
    assert stage[..k] == stage;
    if filtered == [] { return Ok([]); }
    var valid := RunBatches(filtered, bands.rows, id, attr, [Text(band)], id);
    return Ok(valid);
  }

  /** `fetch_contatos_id_by_city_neighborhood_income`. */
  method ResolveByIncome(city: string, neighborhood: string, band: string, addresses: Db<AddressRow>, contacts: Db<ContactRow>)
    returns (r: Result<seq<int>>)
    ensures r == IncomeSpec(city, neighborhood, band, addresses, contacts)
  {
    r := ResolveByBand(city, neighborhood, band, addresses, contacts, ContactId, ContactIncome);
  }

  /** `fetch_contatos_id_by_risk_score_city_neighborhood`. */
  method ResolveByRisk(city: string, neighborhood: string, band: string, addresses: Db<AddressRow>, scores: Db<ScoreRow>)
    returns (r: Result<seq<int>>)
    ensures r == RiskSpec(city, neighborhood, band, addresses, scores)
  {
    r := ResolveByBand(city, neighborhood, band, addresses, scores, ScoreId, ScoreBand);
  }

  /** Stage one has no DISTINCT, so a contact with two address rows in the neighbourhood
      and city enters the re-checked list twice; the `IN` query nevertheless matches its
      band row once, so within one batch the repeat does not reach the result. */
  lemma BandRepeatWithinBatch(city: string, neighborhood: string, band: string, a1: AddressRow, a2: AddressRow, s: ScoreRow)
    requires !IsCentro(neighborhood)
    requires a1.id == a2.id == s.id
    requires a1.bairro == a2.bairro == Text(neighborhood) && a1.cidade == a2.cidade == Text(city)
    requires s.csbaFaixa == Text(band)
    ensures CityRecheck(AddressIds([a1, a2], StageOneQuery(city, neighborhood)), [a1, a2], city) == [s.id, s.id]
    ensures RiskSpec(city, neighborhood, band, Table([a1, a2]), Table([s])) == Ok([s.id])
  {
    RepeatStage(city, neighborhood, a1, a2);
    RepeatBatch(band, s);
  }

  lemma RepeatStage(city: string, neighborhood: string, a1: AddressRow, a2: AddressRow)
    requires !IsCentro(neighborhood) && a1.id == a2.id
    requires a1.bairro == a2.bairro == Text(neighborhood) && a1.cidade == a2.cidade == Text(city)
    ensures AddressIds([a1, a2], StageOneQuery(city, neighborhood)) == [a1.id, a1.id]
    ensures CityRecheck([a1.id, a1.id], [a1, a2], city) == [a1.id, a1.id]
  {
    var rows := [a1, a2];
    assert rows[..1] == [a1];
    assert HasCityRow(rows, a1.id, city);
    var ids := [a1.id, a1.id];
    assert ids[..1] == [a1.id] && ids[..1][..0] == [];
    assert CityRecheck(ids[..1], rows, city) == [a1.id];
  }

  lemma RepeatBatch(band: string, s: ScoreRow)
    requires s.csbaFaixa == Text(band)
    ensures ScanBatches(Chunks([s.id, s.id], QueryBatch), [s], ScoreId, ScoreBand, [Text(band)], ScoreId) == [s.id]
  {
    var ids := [s.id, s.id];
    assert ids[..2] == ids && ids[2..] == [];
    assert Chunks(ids, QueryBatch) == [ids];
    assert BatchHits(ids, [s], ScoreId, ScoreBand, [Text(band)], ScoreId) == [s.id];
  }

  // ----- fetch_contatos_id_by_city_cbo -----

  /** `fetch_contatos_id_by_city_cbo`: the table is re-read from its file on every call;
      no matching label returns `[]` before any database is opened. Inside the `try`, a
      missing table surfaces as an error the `except` turns into `[]`. */
  function OccupationSpec(uf: string, city: string, profession: string, cboFile: Option<seq<string>>, addresses: Db<AddressRow>, contacts: Db<ContactRow>): Result<seq<int>>
  {
    OccupationFor(uf, city, ExpandCodes(LoadCbo(cboFile), profession), addresses, contacts)
  }

  /** The resolver once the profession has been expanded into `codes`. */
  function OccupationFor(uf: string, city: string, codes: seq<string>, addresses: Db<AddressRow>, contacts: Db<ContactRow>): Result<seq<int>>
  {
    if codes == [] then Ok([])
    else if addresses.NoFile? || contacts.NoFile? then Raised(FileNotFound)
    else if addresses.NoTable? then Ok([])
    else
      var stage := Distinct(AddressIds(addresses.rows, AddressQuery(Some(uf), Some(city), None, None)));
      if stage == [] || contacts.NoTable? then Ok([])
      else Ok(ScanBatches(Chunks(stage, QueryBatch), contacts.rows, ContactId, ContactCbo, TextCells(codes), ContactId))
  }

  /** The CBO value equals the full or the short code of some entry labelled exactly
      as the chosen profession. */
  ghost predicate LabelledCode(table: seq<CboEntry>, profession: string, cbo: Cell)
  {
    exists e :: e in table && e.title == profession && (cbo == Text(e.code) || cbo == Text(e.short))
  }

  lemma CodeCellsMembership(table: seq<CboEntry>, profession: string, cbo: Cell)
    ensures cbo in TextCells(ExpandCodes(table, profession)) <==> LabelledCode(table, profession, cbo)
  {
    ExpandCodesSpec(table, profession);
    if LabelledCode(table, profession, cbo) {
      var e :| e in table && e.title == profession && (cbo == Text(e.code) || cbo == Text(e.short));
      assert cbo.s in ExpandCodes(table, profession);
    }
  }

  /** With both tables present an id is returned exactly when it has an address in the
      city and state and a contact row whose CBO is the full or short code of some table
      entry labelled exactly as the chosen profession. */
  lemma OccupationMembership(uf: string, city: string, profession: string, lines: seq<string>, addresses: seq<AddressRow>, contacts: seq<ContactRow>, x: int)
    ensures OccupationSpec(uf, city, profession, Some(lines), Table(addresses), Table(contacts)).Ok?
    ensures x in OccupationSpec(uf, city, profession, Some(lines), Table(addresses), Table(contacts)).value <==>
      && (exists a :: a in addresses && a.id == x && a.uf == Text(uf) && a.cidade == Text(city))
      && (exists c :: c in contacts && c.id == x && LabelledCode(LoadCbo(Some(lines)), profession, c.cbo))
  {
    var table := LoadCbo(Some(lines));
    var codes := ExpandCodes(table, profession);
    OccupationForMembership(uf, city, codes, addresses, contacts, x);
    forall c | c in contacts
      ensures c.cbo in TextCells(codes) <==> LabelledCode(table, profession, c.cbo)
    {
      CodeCellsMembership(table, profession, c.cbo);
    }
    if codes == [] {
      forall c | c in contacts
        ensures !LabelledCode(table, profession, c.cbo)
      {
        assert TextCells(codes) == [];
      }
    }
  }

  lemma OccupationForMembership(uf: string, city: string, codes: seq<string>, addresses: seq<AddressRow>, contacts: seq<ContactRow>, x: int)
    ensures OccupationFor(uf, city, codes, Table(addresses), Table(contacts)).Ok?
    ensures x in OccupationFor(uf, city, codes, Table(addresses), Table(contacts)).value <==>
      && codes != []
      && (exists a :: a in addresses && a.id == x && a.uf == Text(uf) && a.cidade == Text(city))
      && (exists c :: c in contacts && c.id == x && c.cbo in TextCells(codes))
  {
    UfCityStage(addresses, uf, city, x);
    if codes != [] {
      var stage := Distinct(AddressIds(addresses, AddressQuery(Some(uf), Some(city), None, None)));
      if stage != [] {
        ChunkedScanMembership(stage, contacts, ContactId, ContactCbo, TextCells(codes), ContactId, x);
      }
    }
  }

  /** The distinct ids with an address row in the state and the city. */
  lemma UfCityStage(addresses: seq<AddressRow>, uf: string, city: string, x: int)
    ensures x in Distinct(AddressIds(addresses, AddressQuery(Some(uf), Some(city), None, None))) <==>
      exists a :: a in addresses && a.id == x && a.uf == Text(uf) && a.cidade == Text(city)
  {
    var q := AddressQuery(Some(uf), Some(city), None, None);
    forall a | a in addresses
      ensures AddressMatches(a, q) <==> a.uf == Text(uf) && a.cidade == Text(city)
    {
    }
  }

  /** The occupation query binds the batch plus every expanded code: a full batch always
      exceeds the ceiling. */
  lemma OccupationFirstBatchOverflows(stage: seq<int>, codes: seq<string>)
    requires |stage| >= QueryBatch && codes != []
    ensures |Chunks(stage, QueryBatch)| >= 1
    ensures BoundParams(Chunks(stage, QueryBatch)[0], |codes|) == ParamLimit + |codes|
  {
    FullBatchOverflows(stage, |codes|);
    MaxBoundParams(stage, |codes|);
  }

  method ResolveByOccupation(uf: string, city: string, profession: string, cboFile: Option<seq<string>>, addresses: Db<AddressRow>, contacts: Db<ContactRow>)
    returns (r: Result<seq<int>>)
    ensures r == OccupationSpec(uf, city, profession, cboFile, addresses, contacts)
  {
    var codes := ExpandCodes(LoadCbo(cboFile), profession);
    if codes == [] { return Ok([]); }
    if addresses.NoFile? || contacts.NoFile? { return Raised(FileNotFound); }
    if addresses.NoTable? { return Ok([]); }
    var stage := Distinct(AddressIds(addresses.rows, AddressQuery(Some(uf), Some(city), None, None)));
    if stage == [] || contacts.NoTable? { return Ok([]); }
    var valid := RunBatches(stage, contacts.rows, ContactId, ContactCbo, TextCells(codes), ContactId);
    return Ok(valid);
  }

  // ----- The single-query resolvers -----

  /** `fetch_contatos_id_by_cep`: a missing table raises. */
  function CepSpec(cep: string, addresses: Db<AddressRow>): (r: Result<seq<int>>)
    ensures addresses.NoFile? <==> r == Raised(FileNotFound)
    ensures addresses.NoTable? <==> r == Raised(TableMissing)
    ensures r.Ok? ==> forall x :: x in r.value <==> exists a :: a in addresses.rows && a.cep == Text(cep) && a.id == x
  {
    match addresses
    case NoFile => Raised(FileNotFound)
    case NoTable => Raised(TableMissing)
    case Table(rows) => Ok(AddressIds(rows, AddressQuery(None, None, None, Some(cep))))
  }

  /** The rows of SRS_TB_TSE with that electoral title. */
  function TitleIds(rows: seq<TseRow>, title: string): (ids: seq<int>)
    ensures forall x :: x in ids <==> exists t :: t in rows && t.titulo == Text(title) && t.id == x
  {
    if rows == [] then []
    else
      var rest := TitleIds(rows[..|rows| - 1], title);
      var t := rows[|rows| - 1];
      assert rows == rows[..|rows| - 1] + [t];
      rest + (if t.titulo == Text(title) then [t.id] else [])
  }

  /** `fetch_contatos_id_by_titulo_eleitor`: a missing table raises. */
  function TitleSpec(title: string, tse: Db<TseRow>): (r: Result<seq<int>>)
    ensures tse.NoFile? <==> r == Raised(FileNotFound)
    ensures tse.NoTable? <==> r == Raised(TableMissing)
    ensures tse.Table? ==> r == Ok(TitleIds(tse.rows, title))
  {
    match tse
    case NoFile => Raised(FileNotFound)
    case NoTable => Raised(TableMissing)
    case Table(rows) => Ok(TitleIds(rows, title))
  }

  /** `fetch_contatos_by_neighborhood`: the `except` turns a missing table into `[]`. */
  function NeighborhoodSpec(uf: string, city: string, neighborhood: string, addresses: Db<AddressRow>): (r: Result<seq<int>>)
    ensures addresses.NoFile? <==> r.Raised?
    ensures addresses.NoTable? ==> r == Ok([])
    ensures addresses.Table? ==> forall x :: x in r.value <==>
      (exists a :: a in addresses.rows && a.uf == Text(uf) && a.cidade == Text(city) && a.bairro == Text(neighborhood) && a.id == x)
  {
    match addresses
    case NoFile => Raised(FileNotFound)
    case NoTable => Ok([])
    case Table(rows) => Ok(AddressIds(rows, AddressQuery(Some(uf), Some(city), Some(neighborhood), None)))
  }

  /** The SRS_TB_UNIVERSITARIOS columns the university search reads. */
  datatype StudentRow = StudentRow(id: int, uf: Cell, faculdade: Cell, curso: Cell, campus: Cell, anoVestibular: Cell, cota: Cell, anoConclusao: Cell)

  /** `row[3].encode('latin-1')` succeeds: CAMPUS is text and every character fits in one
      Latin-1 byte. A NULL or numeric CAMPUS raises AttributeError, a wider character
      UnicodeEncodeError; neither is the UnicodeDecodeError the per-row handler skips. */
  predicate CampusEncodes(c: Cell)
  {
    c.Text? && forall k :: 0 <= k < |c.s| ==> c.s[k] as int <= 0xFF
  }

  function StudentsOf(rows: seq<StudentRow>, uf: string): (r: seq<StudentRow>)
    ensures forall s :: s in r <==> s in rows && s.uf == Text(uf)
  {
    if rows == [] then []
    else
      var rest := StudentsOf(rows[..|rows| - 1], uf);
      var s := rows[|rows| - 1];
      assert rows == rows[..|rows| - 1] + [s];
      if s.uf == Text(uf) then rest + [s] else rest
  }

  /** `fetch_universitarios_by_uf`: no UF gives `[]` before connecting; a missing table or
      any row whose CAMPUS cannot be Latin-1 encoded makes the outer `except` return `[]`. */
  function StudentsSpec(uf: string, db: Db<StudentRow>): (r: Result<seq<StudentRow>>)
    ensures r.Raised? <==> uf != "" && db.NoFile?
    ensures r.Ok? ==> forall s :: s in r.value ==> db.Table? && s in db.rows && s.uf == Text(uf) && CampusEncodes(s.campus)
    ensures uf != "" && db.Table? && (forall s :: s in db.rows && s.uf == Text(uf) ==> CampusEncodes(s.campus)) ==>
      r.Ok? && forall s :: s in db.rows && s.uf == Text(uf) ==> s in r.value
    ensures uf == "" ==> r == Ok([])
    ensures uf != "" && db.Table? && (exists s :: s in db.rows && s.uf == Text(uf) && !CampusEncodes(s.campus)) ==>
      r == Ok([])
  {
    if uf == "" then Ok([])
    else match db
      case NoFile => Raised(FileNotFound)
      case NoTable => Ok([])
      case Table(rows) =>
        var selected := StudentsOf(rows, uf);
        if forall s :: s in selected ==> CampusEncodes(s.campus) then Ok(selected) else Ok([])
  }

  // ----- The CEP and title file loops of search_leads -----

  /** `for key in keys: ids.extend(lookup(key))`: an exception aborts the whole search. */
  function ListSpec(keys: seq<string>, lookup: string -> Result<seq<int>>): Result<seq<int>>
  {
    if keys == [] then Ok([])
    else Then(ListSpec(keys[..|keys| - 1], lookup), lookup(keys[|keys| - 1]))
  }

  /** Without an exception, the concatenation holds exactly the ids some line's lookup
      returned, each as often as all lookups together return it; a lookup raising makes
      the whole list raise. */
  lemma {:induction false} ListSpecMembership(keys: seq<string>, lookup: string -> Result<seq<int>>)
    ensures ListSpec(keys, lookup).Raised? <==> exists k :: k in keys && lookup(k).Raised?
    ensures ListSpec(keys, lookup).Ok? ==> forall x :: x in ListSpec(keys, lookup).value <==>
      exists k :: k in keys && x in lookup(k).value
    ensures ListSpec(keys, lookup).Ok? ==> forall x ::
      multiset(ListSpec(keys, lookup).value)[x] == CountAll(keys, lookup, x)
  {
    if keys != [] {
      var init := keys[..|keys| - 1];
      var last := keys[|keys| - 1];
      ListSpecMembership(init, lookup);
      assert keys == init + [last];
      if exists k :: k in keys && lookup(k).Raised? {
        var k :| k in keys && lookup(k).Raised?;
        if k != last {
          assert k in init;
        }
      }
      if ListSpec(keys, lookup).Ok? {
        forall x
          ensures x in ListSpec(keys, lookup).value <==> exists k :: k in keys && x in lookup(k).value
        {
          if exists k :: k in keys && x in lookup(k).value {
            var k :| k in keys && x in lookup(k).value;
            if k != last {
              assert k in init;
            }
          }
        }
      }
    }
  }

  /** Occurrences of `x` across all lookups, assuming none raises. */
  function CountAll(keys: seq<string>, lookup: string -> Result<seq<int>>, x: int): nat
  {
    if keys == [] then 0
    else
      var last := lookup(keys[|keys| - 1]);
      CountAll(keys[..|keys| - 1], lookup, x) + (if last.Ok? then multiset(last.value)[x] else 0)
  }

  method ResolveList(keys: seq<string>, lookup: string -> Result<seq<int>>) returns (r: Result<seq<int>>)
    ensures r == ListSpec(keys, lookup)
  {
    var ids: seq<int> := [];
    var i := 0;
    while i < |keys|
      invariant 0 <= i <= |keys|
      invariant ListSpec(keys[..i], lookup) == Ok(ids)
    {
      assert keys[..i + 1][..i] == keys[..i];
      var found := lookup(keys[i]);
      if found.Raised? {
        ThenRaised(keys[..i + 1], keys, lookup);
        return found;
      }
      ids := ids + found.value;
      i := i + 1;
    }
    assert keys[..i] == keys;
    return Ok(ids);
  }

  /** Once a prefix raises, the whole list raises with the same error. */
  lemma {:induction false} ThenRaised(prefix: seq<string>, keys: seq<string>, lookup: string -> Result<seq<int>>)
    requires prefix <= keys
    requires ListSpec(prefix, lookup).Raised?
    ensures ListSpec(keys, lookup) == ListSpec(prefix, lookup)
    decreases |keys|
  {
    if |keys| > |prefix| {
      var init := keys[..|keys| - 1];
      assert prefix <= init;
      ThenRaised(prefix, init, lookup);
    } else {
      assert prefix == keys;
    }
  }
}
