/** The report files: `format_field`, the rows `save_to_txt` writes for the enriched leads and
    the rows `save_universitarios_to_txt` writes. A file is modelled as the sequence of lines
    written to it; a row whose `';'.join` raises ends the file early. */
module Report {
  import opened PyText
  import opened PyDict
  import opened Store
  import opened Enrichment
  import Resolvers

  /** `format_field`: a non-empty list yields its first element as it is (not necessarily a
      string), None yields "None", anything else `str(value)`. */
  function FormatField(v: Value): (r: Cell)
    ensures v.Listed? && |v.cells| > 0 ==> r == v.cells[0]
    ensures v.Scalar? ==> r.Text?
    ensures v == Scalar(Null) ==> r == Text("None")
  {
    match v
    case Listed(cells) => if |cells| > 0 then cells[0] else Text("[]")
    case Scalar(c) => Text(Str(c))
  }

  /** `format_field` applied to one element of a fetched list. */
  function FormatCell(c: Cell): Cell
  {
    FormatField(Scalar(c))
  }

  /** `format_field` gives back what it was given for text, and a number's text reads back
      as that number. */
  lemma FormatFieldReadsBack(v: Value)
    ensures v.Scalar? && v.cell.Text? ==> FormatField(v) == v.cell
    ensures v.Scalar? && v.cell.Num? ==> PyInt(FormatField(v).s) == Some(v.cell.n)
  {
    if v.Scalar? && v.cell.Num? {
      IntOfDecimal(v.cell.n);
    }
  }

  /** `values.get(key, "None")`. */
  function Get(values: Fields, k: Key): Value
  {
    if k in values then values[k] else Scalar(Text("None"))
  }

  /** `values.get(key, ["None"] * 6)`. */
  function GetList(values: Fields, k: Key): Value
  {
    if k in values then values[k] else Listed(seq(6, _ => Text("None")))
  }

  /** Iterating a value with `for` or indexing it: a list yields its cells, a string its
      characters; None and numbers raise TypeError. */
  function Elements(v: Value): (r: Result<seq<Cell>>)
    ensures v.Listed? ==> r == Ok(v.cells)
    ensures r.Ok? && v.Scalar? && v.cell.Text? ==> |r.value| == |v.cell.s|
    ensures r.Raised? <==> v.Scalar? && !v.cell.Text?
  {
    match v
    case Listed(cells) => Ok(cells)
    case Scalar(Text(s)) => Ok(seq(|s|, i requires 0 <= i < |s| => Text([s[i]])))
    case Scalar(Null) => Raised(TypeError)
    case Scalar(Num(_)) => Raised(TypeError)
  }

  // ----- save_to_txt -----

  /** The 26 scalar fields after CONTATOS_ID, in row order. */
  const RowKeys: seq<Key> := CoreKeys + SlotKeys(1) + SlotKeys(2) + ScoreKeys + TseKeys

  /** The header list as first written down: 27 names for the scalar columns, then the two
      phone columns. */
  const BaseHeader: seq<string> := [
    "CONTATOS_ID", "CPF", "NOME", "SEXO", "NASC", "CBO", "RENDA", "FAIXA_RENDA_ID",
    "LOGR_NOME1", "LOGR_NUMERO1", "LOGR_COMPLEMENTO1", "BAIRRO1", "CIDADE1", "CEP1",
    "LOGR_NOME2", "LOGR_NUMERO2", "LOGR_COMPLEMENTO2", "BAIRRO2", "CIDADE2", "CEP2",
    "CSB8", "CSB8_FAIXA", "CSBA", "CSBA_FAIXA",
    "TITULO_ELEITOR", "ZONA", "SECAO",
    "TELEFONE", "TELEFONE_SECUNDARIO"]

  /** `f"DDD{i}", f"TELEFONE{i}"` for i in 1..n. */
  function PairNames(n: nat): (r: seq<string>)
    ensures |r| == 2 * n
    ensures forall j :: 0 <= j < 2 * n ==> r[j] == (if j % 2 == 0 then "DDD" else "TELEFONE") + Decimal(j / 2 + 1)
  {
    if n == 0 then [] else PairNames(n - 1) + ["DDD" + Decimal(n), "TELEFONE" + Decimal(n)]
  }

  /** The full header: the base names, EMAIL1..EMAIL6, then DDD1/TELEFONE1..DDD6/TELEFONE6. */
  function Header(): seq<string>
  {
    BaseHeader + seq(6, i requires 0 <= i < 6 => "EMAIL" + Decimal(i + 1)) + PairNames(6)
  }

  /** The keys of the single-valued columns of a `save_to_txt` row. */
  predicate ColumnKey(k: Key)
  {
    k.Core? || (k.Addr? && (k.slot == 1 || k.slot == 2)) || k.Score? || k.Tse?
  }

  /** The position of a single-valued key in a `save_to_txt` row. */
  function Column(k: Key): (i: nat)
    requires ColumnKey(k)
    ensures 1 <= i <= 26 && RowKeys[i - 1] == k
  {
    match k
    case Core(c) => 1 + CoreIndex(c)
    case Addr(c, slot) => 7 + 6 * (slot - 1) + AddrIndex(c) + 1
    case Score(c) => 19 + ScoreIndex(c) + 1
    case Tse(c) => 23 + TseIndex(c) + 1
  }

  lemma CoreHeaderNames(c: CoreCol)
    ensures BaseHeader[Column(Core(c))] == Name(Core(c))
  {
    match c
    case Cpf =>
    case Nome =>
    case Sexo =>
    case Nasc =>
    case CboCode =>
    case Renda =>
    case FaixaRendaId =>
  }

  lemma AddressHeaderNames(c: AddrCol, slot: nat)
    requires slot == 1 || slot == 2
    ensures BaseHeader[Column(Addr(c, slot))] == Name(Addr(c, slot))
  {
    assert Column(Addr(c, slot)) == 2 + 6 * slot + AddrIndex(c);
    assert Name(Addr(c, slot)) == ColName(c) + Decimal(slot);
    if slot == 1 {
      assert Decimal(1) == "1";
      AddressSlotNames(c, 8, "1");
    } else {
      assert Decimal(2) == "2";
      AddressSlotNames(c, 14, "2");
    }
  }

  lemma AddressSlotNames(c: AddrCol, base: nat, suffix: string)
    requires (base == 8 && suffix == "1") || (base == 14 && suffix == "2")
    ensures BaseHeader[base + AddrIndex(c)] == ColName(c) + suffix
  {
    match c
    case LogrNome =>
    case LogrNumero =>
    case LogrComplemento =>
    case Bairro =>
    case Cidade =>
    case Cep =>
  }

  lemma ScoreTseHeaderNames(c: ScoreCol, t: TseCol)
    ensures BaseHeader[Column(Score(c))] == Name(Score(c))
    ensures BaseHeader[Column(Tse(t))] == Name(Tse(t))
  {
    match c
    case Csb8 =>
    case Csb8Faixa =>
    case Csba =>
    case CsbaFaixa =>
  }

  /** The 47-name header names every single-valued key at that key's row position, then puts
      TELEFONE and TELEFONE_SECUNDARIO where the rows hold their first two e-mails. */
  lemma HeaderLayout()
    ensures |Header()| == 47
    ensures Header()[0] == "CONTATOS_ID"
    ensures forall k :: ColumnKey(k) ==> Header()[Column(k)] == Name(k)
    ensures Header()[27] == "TELEFONE" && Header()[28] == "TELEFONE_SECUNDARIO"
    ensures forall i :: 29 <= i < 35 ==> Header()[i] == "EMAIL" + Decimal(i - 28)
    ensures forall j :: 35 <= j < 47 ==> Header()[j] == (if j % 2 == 1 then "DDD" else "TELEFONE") + Decimal((j - 35) / 2 + 1)
  {
    forall k | ColumnKey(k)
      ensures Header()[Column(k)] == Name(k)
    {
      match k
      case Core(c) => CoreHeaderNames(c);
      case Addr(c, slot) => AddressHeaderNames(c, slot);
      case Score(c) => ScoreTseHeaderNames(c, TituloEleitor);
      case Tse(t) => ScoreTseHeaderNames(Csb8, t);
    }
  }

  /** The header list: the literal, then the two `append`/`extend` loops. */
  method BuildHeader() returns (headers: seq<string>)
    ensures headers == Header()
  {
    headers := BaseHeader;
    for i := 1 to 7
      invariant headers == BaseHeader + seq(i - 1, j requires 0 <= j < i - 1 => "EMAIL" + Decimal(j + 1))
    {
      headers := headers + ["EMAIL" + Decimal(i)];
    }
    ghost var withEmails := headers;
    for i := 1 to 7
      invariant headers == withEmails + PairNames(i - 1)
    {
      assert PairNames(i) == PairNames(i - 1) + ["DDD" + Decimal(i), "TELEFONE" + Decimal(i)];
      headers := headers + ["DDD" + Decimal(i), "TELEFONE" + Decimal(i)];
    }
  }

  /** The 27 scalar cells: the id, then `format_field(values.get(key, "None"))` per key. */
  function ScalarCells(id: int, values: Fields): (r: seq<Cell>)
    ensures |r| == 27
  {
    [Text(Decimal(id))] + seq(26, i requires 0 <= i < 26 => FormatField(Get(values, RowKeys[i])))
  }

  /** Every e-mail formatted, then "None" until there are at least six. */
  function EmailCells(emails: seq<Cell>): seq<Cell>
  {
    seq(|emails|, i requires 0 <= i < |emails| => FormatCell(emails[i]))
      + seq(if |emails| < 6 then 6 - |emails| else 0, _ => Text("None"))
  }

  function Pick(cells: seq<Cell>, i: nat): Cell
  {
    if i < |cells| then FormatCell(cells[i]) else Text("None")
  }

  /** The DDD/TELEFONE pairs for positions 0..n-1, "None" past the end of either list. */
  function PhoneCells(ddds: seq<Cell>, tels: seq<Cell>, n: nat): (r: seq<Cell>)
    ensures |r| == 2 * n
  {
    if n == 0 then [] else PhoneCells(ddds, tels, n - 1) + [Pick(ddds, n - 1), Pick(tels, n - 1)]
  }

  /** The cells of one `save_to_txt` row, or the TypeError iterating a field raises. */
  function RowCells(id: int, values: Fields): Result<seq<Cell>>
  {
    match Elements(GetList(values, Email))
    case Raised(e) => Raised(e)
    case Ok(emails) =>
      match Elements(GetList(values, Ddd))
      case Raised(e) => Raised(e)
      case Ok(ddds) =>
        match Elements(GetList(values, Telefone))
        case Raised(e) => Raised(e)
        case Ok(tels) => Ok(ScalarCells(id, values) + EmailCells(emails) + PhoneCells(ddds, tels, 6))
  }

  /** `';'.join(row_data)`: every cell must be a string. */
  function JoinCells(row: seq<Cell>): (r: Result<string>)
    ensures r.Ok? <==> forall c :: c in row ==> c.Text?
  {
    if forall c :: c in row ==> c.Text? then Ok(Join(seq(|row|, i requires 0 <= i < |row| => row[i].s), ';'))
    else Raised(TypeError)
  }

  function RowLine(id: int, values: Fields): Result<string>
  {
    match RowCells(id, values)
    case Raised(e) => Raised(e)
    case Ok(row) => JoinCells(row)
  }

  lemma {:induction false} PhoneCellsSpec(ddds: seq<Cell>, tels: seq<Cell>, n: nat)
    ensures forall i :: 0 <= i < n ==>
      PhoneCells(ddds, tels, n)[2 * i] == Pick(ddds, i) && PhoneCells(ddds, tels, n)[2 * i + 1] == Pick(tels, i)
  {
    if n > 0 {
      PhoneCellsSpec(ddds, tels, n - 1);
    }
  }

  /** A row is the id, each single-valued field at its header position, every e-mail padded
      with "None" to at least six but never cut, and six DDD/TELEFONE pairs; so with at most
      six e-mails it has 45 cells against the header's 47. */
  lemma RowLayout(id: int, values: Fields)
    requires RowCells(id, values).Ok?
    ensures var row := RowCells(id, values).value;
      var emails := Elements(GetList(values, Email)).value;
      var ddds := Elements(GetList(values, Ddd)).value;
      var tels := Elements(GetList(values, Telefone)).value;
      var e := if |emails| < 6 then 6 else |emails|;
      && |row| == 27 + e + 12
      && row[0] == Text(Decimal(id))
      && (forall k :: ColumnKey(k) ==> row[Column(k)] == FormatField(Get(values, k)))
      && (forall i :: 0 <= i < e ==> row[27 + i] == if i < |emails| then FormatCell(emails[i]) else Text("None"))
      && (forall i :: 0 <= i < 6 ==> row[27 + e + 2 * i] == Pick(ddds, i) && row[27 + e + 2 * i + 1] == Pick(tels, i))
      && (|emails| <= 6 ==> |row| == 45 && |row| != |Header()|)
  {
    var emails := Elements(GetList(values, Email)).value;
    var ddds := Elements(GetList(values, Ddd)).value;
    var tels := Elements(GetList(values, Telefone)).value;
    var scalars := ScalarCells(id, values);
    var mails := EmailCells(emails);
    var phones := PhoneCells(ddds, tels, 6);
    var row := RowCells(id, values).value;
    assert row == scalars + mails + phones;
    RowParts(id, values, scalars, mails, phones, emails, ddds, tels);
    HeaderLayout();
  }

  /** With six e-mails or fewer, the row's first DDD and TELEFONE cells sit under the header's
      EMAIL5 and EMAIL6, two columns before DDD1 and TELEFONE1; the last two pairs have no
      header at all. */
  lemma PhoneColumnsMisplaced(id: int, values: Fields)
    requires RowCells(id, values).Ok? && |Elements(GetList(values, Email)).value| <= 6
    ensures var row := RowCells(id, values).value;
      && row[33] == Pick(Elements(GetList(values, Ddd)).value, 0) && Header()[33] == "EMAIL5"
      && row[34] == Pick(Elements(GetList(values, Telefone)).value, 0) && Header()[34] == "EMAIL6"
      && Header()[35] == "DDD1" && Header()[36] == "TELEFONE1"
  {
    RowLayout(id, values);
    HeaderLayout();
    assert Header()[33] == "EMAIL" + Decimal(5);
    assert Header()[35] == "DDD" + Decimal(1);
  }

  /** The three parts of a row, each at its place. */
  lemma RowParts(id: int, values: Fields, scalars: seq<Cell>, mails: seq<Cell>, phones: seq<Cell>,
                 emails: seq<Cell>, ddds: seq<Cell>, tels: seq<Cell>)
    requires scalars == ScalarCells(id, values) && mails == EmailCells(emails) && phones == PhoneCells(ddds, tels, 6)
    ensures var row := scalars + mails + phones;
      var e := if |emails| < 6 then 6 else |emails|;
      && |row| == 27 + e + 12
      && row[0] == Text(Decimal(id))
      && (forall k :: ColumnKey(k) ==> row[Column(k)] == FormatField(Get(values, k)))
      && (forall i :: 0 <= i < e ==> row[27 + i] == if i < |emails| then FormatCell(emails[i]) else Text("None"))
      && (forall i :: 0 <= i < 6 ==> row[27 + e + 2 * i] == Pick(ddds, i) && row[27 + e + 2 * i + 1] == Pick(tels, i))
  {
    var row := scalars + mails + phones;
    ScalarColumns(id, values);
    PhoneCellsSpec(ddds, tels, 6);
    forall k | ColumnKey(k)
      ensures row[Column(k)] == FormatField(Get(values, k))
    {
      assert row[Column(k)] == scalars[Column(k)];
    }
  }

  /** Each single-valued key's cell sits at that key's column. */
  lemma ScalarColumns(id: int, values: Fields)
    ensures forall k :: ColumnKey(k) ==> ScalarCells(id, values)[Column(k)] == FormatField(Get(values, k))
  {
    forall k | ColumnKey(k)
      ensures ScalarCells(id, values)[Column(k)] == FormatField(Get(values, k))
    {
      var i := Column(k);
      assert RowKeys[i - 1] == k;
    }
  }

  /** A missing list field is read as six "None" entries. */
  lemma MissingListsRenderNone(id: int, values: Fields)
    requires Email !in values && Ddd !in values && Telefone !in values
    ensures RowCells(id, values).Ok?
    ensures RowCells(id, values).value[27..] == seq(18, _ => Text("None"))
  {
    var nones := seq(6, _ => Text("None"));
    PhoneCellsSpec(nones, nones, 6);
    var row := RowCells(id, values).value;
    var tail := EmailCells(nones) + PhoneCells(nones, nones, 6);
    assert row == ScalarCells(id, values) + tail;
    assert row[27..] == tail;
    forall i | 0 <= i < 18
      ensures tail[i] == Text("None")
    {
      if i >= 6 {
        assert tail[i] == PhoneCells(nones, nones, 6)[i - 6];
        var j := (i - 6) / 2;
        if i - 6 == 2 * j {
          assert tail[i] == Pick(nones, j);
        } else {
          assert i - 6 == 2 * j + 1;
          assert tail[i] == Pick(nones, j);
        }
      } else {
        assert tail[i] == FormatCell(nones[i]);
      }
    }
  }

  /** The record shape `process_contato_id` produces: scalar keys hold single values, the
      list keys hold lists. */
  predicate WellShaped(values: Fields)
  {
    forall k :: k in values ==> (values[k].Listed? <==> k == Ddd || k == Telefone || k == Email)
  }

  lemma EnrichWellShaped(l: Lookups)
    requires WellFormed(l) && !l.core.ConnectFail?
    ensures WellShaped(Enrich(l).value)
  {
    EnrichPerKey(l);
  }

  /** Every well-shaped record becomes a line: no field raises and every cell is a string. */
  lemma WellShapedRowRenders(id: int, values: Fields)
    requires WellShaped(values)
    ensures RowLine(id, values).Ok?
  {
    var emails := Elements(GetList(values, Email)).value;
    var ddds := Elements(GetList(values, Ddd)).value;
    var tels := Elements(GetList(values, Telefone)).value;
    var scalars := ScalarCells(id, values);
    var mails := EmailCells(emails);
    var phones := PhoneCells(ddds, tels, 6);
    ScalarCellsText(id, values);
    var row := scalars + mails + phones;
    forall c: Cell | c in row
      ensures c.Text?
    {
      var i :| 0 <= i < |row| && row[i] == c;
      if i < 27 {
        assert c == scalars[i];
      } else if i < 27 + |mails| {
        assert c == mails[i - 27];
      } else {
        assert c == phones[i - 27 - |mails|];
        PhoneCellsText(ddds, tels, 6, i - 27 - |mails|);
      }
    }
  }

  /** The id and every single-valued field of a well-shaped record format to text. */
  lemma ScalarCellsText(id: int, values: Fields)
    requires WellShaped(values)
    ensures forall i :: 0 <= i < 27 ==> ScalarCells(id, values)[i].Text?
  {
    forall i | 1 <= i < 27
      ensures ScalarCells(id, values)[i].Text?
    {
      assert RowKeys[i - 1] != Ddd && RowKeys[i - 1] != Telefone && RowKeys[i - 1] != Email;
    }
  }

  lemma {:induction false} PhoneCellsText(ddds: seq<Cell>, tels: seq<Cell>, n: nat, i: nat)
    requires i < 2 * n
    ensures PhoneCells(ddds, tels, n)[i].Text?
  {
    if i < 2 * (n - 1) {
      PhoneCellsText(ddds, tels, n - 1, i);
    }
  }

  /** A written line splits back on ';' into its cells when no cell contains ';', and its
      first field reads back as the CONTATOS_ID. */
  lemma RowLineReadsBack(id: int, values: Fields)
    requires RowCells(id, values).Ok? && RowLine(id, values).Ok?
    requires forall c :: c in RowCells(id, values).value ==> ';' !in c.s
    ensures var row := RowCells(id, values).value;
      SplitOn(RowLine(id, values).value, ';') == seq(|row|, i requires 0 <= i < |row| => row[i].s)
    ensures PyInt(SplitOn(RowLine(id, values).value, ';')[0]) == Some(id)
  {
    var row := RowCells(id, values).value;
    var texts := seq(|row|, i requires 0 <= i < |row| => row[i].s);
    forall k | 0 <= k < |texts|
      ensures ';' !in texts[k]
    {
      assert row[k] in row;
    }
    SplitJoin(texts, ';');
    IntOfDecimal(id);
  }

  /** One row of `save_to_txt`: the 27-cell literal, then the e-mail loop, the padding loop
      and the DDD/TELEFONE loop. */
  method BuildRow(id: int, values: Fields) returns (r: Result<seq<Cell>>)
    ensures r == RowCells(id, values)
  {
    var row := ScalarCells(id, values);
    var emails: seq<Cell>;
    match Elements(GetList(values, Email)) {
      case Raised(e) => return Raised(e);
      case Ok(es) => emails := es;
    }
    row := AppendEmails(row, emails);
    var ddds: seq<Cell>;
    var tels: seq<Cell>;
    match Elements(GetList(values, Ddd)) {
      case Raised(e) => return Raised(e);
      case Ok(ds) => ddds := ds;
    }
    match Elements(GetList(values, Telefone)) {
      case Raised(e) => return Raised(e);
      case Ok(ts) => tels := ts;
    }
    row := AppendPhones(row, ddds, tels);
    return Ok(row);
  }

  /** The e-mail loop, then the padding loop up to six e-mail cells. */
  method AppendEmails(base: seq<Cell>, emails: seq<Cell>) returns (row: seq<Cell>)
    ensures row == base + EmailCells(emails)
  {
    row := base;
    for i := 0 to |emails|
      invariant row == base + seq(i, j requires 0 <= j < i => FormatCell(emails[j]))
    {
      row := row + [FormatCell(emails[i])];
    }
    ghost var withEmails := row;
    var pad := if |emails| < 6 then 6 - |emails| else 0;
    for i := 0 to pad
      invariant row == withEmails + seq(i, _ => Text("None"))
    {
      row := row + [Text("None")];
    }
  }

  /** The six DDD/TELEFONE pairs. */
  method AppendPhones(base: seq<Cell>, ddds: seq<Cell>, tels: seq<Cell>) returns (row: seq<Cell>)
    ensures row == base + PhoneCells(ddds, tels, 6)
  {
    row := base;
    for i := 0 to 6
      invariant row == base + PhoneCells(ddds, tels, i)
    {
      row := row + [Pick(ddds, i), Pick(tels, i)];
    }
  }

  /** The lines a report file ends up with, and whether the writer got to its end. */
  datatype Saved = Saved(lines: seq<string>, complete: bool)

  /** The lines for `keys` in order, stopping at the first record whose rendering raises:
      the file has been opened and written up to there when the exception leaves. */
  function Lines(keys: seq<int>, vals: map<int, Fields>, render: (int, Fields) -> Result<string>): Saved
    requires forall k :: k in keys ==> k in vals
  {
    if keys == [] then Saved([], true)
    else
      var before := Lines(keys[..|keys| - 1], vals, render);
      var id := keys[|keys| - 1];
      if !before.complete then before
      else match render(id, vals[id])
        case Ok(line) => Saved(before.lines + [line], true)
        case Raised(_) => Saved(before.lines, false)
  }

  /** When every record renders, the file is complete with record `j`'s line at `j`. */
  lemma {:induction false} LinesComplete(keys: seq<int>, vals: map<int, Fields>, render: (int, Fields) -> Result<string>)
    requires forall k :: k in keys ==> k in vals && render(k, vals[k]).Ok?
    ensures Lines(keys, vals, render).complete
    ensures |Lines(keys, vals, render).lines| == |keys|
    ensures forall j :: 0 <= j < |keys| ==>
      render(keys[j], vals[keys[j]]).Ok? && Lines(keys, vals, render).lines[j] == render(keys[j], vals[keys[j]]).value
  {
    if keys != [] {
      var init := keys[..|keys| - 1];
      LinesComplete(init, vals, render);
      assert forall j :: 0 <= j < |init| ==> init[j] == keys[j];
    }
  }

  /** One more record: its line is appended if it renders, otherwise the file stops there. */
  lemma LinesStep(keys: seq<int>, vals: map<int, Fields>, render: (int, Fields) -> Result<string>, i: nat)
    requires forall k :: k in keys ==> k in vals
    requires i < |keys| && Lines(keys[..i], vals, render).complete
    ensures keys[i] in vals
    ensures Lines(keys[..i + 1], vals, render) ==
      match render(keys[i], vals[keys[i]])
      case Ok(line) => Saved(Lines(keys[..i], vals, render).lines + [line], true)
      case Raised(_) => Saved(Lines(keys[..i], vals, render).lines, false)
  {
    assert keys[i] in keys;
    assert keys[..i + 1][..i] == keys[..i] && keys[..i + 1][i] == keys[i];
  }

  /** Once a record has raised, later records add nothing. */
  lemma {:induction false} LinesStop(keys: seq<int>, vals: map<int, Fields>, render: (int, Fields) -> Result<string>, n: nat)
    requires forall k :: k in keys ==> k in vals
    requires n <= |keys| && !Lines(keys[..n], vals, render).complete
    ensures Lines(keys, vals, render) == Lines(keys[..n], vals, render)
    decreases |keys| - n
  {
    if n < |keys| {
      assert keys[..n + 1][..n] == keys[..n];
      LinesStop(keys, vals, render, n + 1);
    } else {
      assert keys[..n] == keys;
    }
  }

  /** `save_to_txt`: the header line, then one line per record in dictionary order. */
  function SaveSpec(data: ODict<Fields>): Saved
    requires forall k :: k in data.keys ==> k in data.vals
  {
    var rows := Lines(data.keys, data.vals, RowLine);
    Saved([Join(Header(), ';')] + rows.lines, rows.complete)
  }

  /** When every record is well shaped, the file is complete: the header, then record `j`'s
      line at position `j + 1`, one line per record. */
  lemma SaveComplete(data: ODict<Fields>)
    requires forall k :: k in data.keys ==> k in data.vals && WellShaped(data.vals[k])
    ensures SaveSpec(data).complete
    ensures |SaveSpec(data).lines| == 1 + |data.keys|
    ensures SaveSpec(data).lines[0] == Join(Header(), ';')
    ensures forall j :: 0 <= j < |data.keys| ==>
      RowLine(data.keys[j], data.vals[data.keys[j]]).Ok? &&
      SaveSpec(data).lines[j + 1] == RowLine(data.keys[j], data.vals[data.keys[j]]).value
  {
    forall k | k in data.keys
      ensures RowLine(k, data.vals[k]).Ok?
    {
      WellShapedRowRenders(k, data.vals[k]);
    }
    LinesComplete(data.keys, data.vals, RowLine);
    var rows := Lines(data.keys, data.vals, RowLine);
    var saved := SaveSpec(data);
    assert saved.lines == [Join(Header(), ';')] + rows.lines && saved.complete == rows.complete;
    forall j | 0 <= j < |data.keys|
      ensures saved.lines[j + 1] == rows.lines[j]
    {
    }
  }

  /** `f.write(';'.join(row_data) + '\n')` for one record. */
  method WriteRow(id: int, values: Fields) returns (line: Result<string>)
    ensures line == RowLine(id, values)
  {
    var row := BuildRow(id, values);
    if row.Raised? {
      line := Raised(row.error);
    } else {
      line := JoinCells(row.value);
    }
  }

  /** The `for contatos_id, values in data.items()` loop: one line per record until a row
      raises. */
  method WriteRows(keys: seq<int>, vals: map<int, Fields>) returns (rows: Saved)
    requires forall k :: k in keys ==> k in vals
    ensures rows == Lines(keys, vals, RowLine)
  {
    var lines := [];
    for i := 0 to |keys|
      invariant Lines(keys[..i], vals, RowLine) == Saved(lines, true)
    {
      LinesStep(keys, vals, RowLine, i);
      var line := WriteRow(keys[i], vals[keys[i]]);
      if line.Raised? {
        LinesStop(keys, vals, RowLine, i + 1);
        return Saved(lines, false);
      }
      lines := lines + [line.value];
    }
    assert keys[..|keys|] == keys;
    return Saved(lines, true);
  }

  /** `save_to_txt`: write the header, then each row; a row that raises ends the file. */
  method SaveToTxt(data: ODict<Fields>) returns (s: Saved)
    requires forall k :: k in data.keys ==> k in data.vals
    ensures s == SaveSpec(data)
  {
    var headers := BuildHeader();
    var rows := WriteRows(data.keys, data.vals);
    s := Saved([Join(headers, ';')] + rows.lines, rows.complete);
  }

  // ----- save_universitarios_to_txt -----

  /** The keys read for header names 1..23; the remaining six names (FACULDADE..ANO_CONCULSAO)
      are no key of a lead record, so `values.get` yields "None" for them. */
  const UnivKeys: seq<Key> := CoreKeys + SlotKeys(1) + SlotKeys(2) + ScoreKeys

  const UnivHeader: seq<string> := [
    "CONTATOS_ID", "CPF", "NOME", "SEXO", "NASC", "CBO", "RENDA", "FAIXA_RENDA_ID",
    "LOGR_NOME1", "LOGR_NUMERO1", "LOGR_COMPLEMENTO1", "BAIRRO1", "CIDADE1", "CEP1",
    "LOGR_NOME2", "LOGR_NUMERO2", "LOGR_COMPLEMENTO2", "BAIRRO2", "CIDADE2", "CEP2",
    "CSB8", "CSB8_FAIXA", "CSBA", "CSBA_FAIXA",
    "FACULDADE", "CURSO", "CAMPUS", "ANO_VESTIBULAR", "COTA", "ANO_CONCULSAO"]

  /** The six values appended for one matching student, unformatted. The stored dictionary
      has ANO_CONCLUSAO, the lookup asks for ANO_CONCULSAO, so the last is always "None". */
  function StudentCells(s: Resolvers.StudentRow): seq<Cell>
  {
    [s.faculdade, s.curso, s.campus, s.anoVestibular, s.cota, Text("None")]
  }

  /** The cells of every student whose CONTATOS_ID is `id`, in list order. */
  function MatchingStudents(students: seq<Resolvers.StudentRow>, id: int): seq<Cell>
  {
    if students == [] then []
    else
      MatchingStudents(students[..|students| - 1], id)
        + (if students[|students| - 1].id == id then StudentCells(students[|students| - 1]) else [])
  }

  function CountStudents(students: seq<Resolvers.StudentRow>, id: int): nat
  {
    if students == [] then 0
    else CountStudents(students[..|students| - 1], id) + (if students[|students| - 1].id == id then 1 else 0)
  }

  /** One university row: the id, 29 formatted lookups, then six raw cells per matching
      student. */
  function UnivRowCells(id: int, values: Fields, students: seq<Resolvers.StudentRow>): seq<Cell>
  {
    [Text(Decimal(id))] + seq(23, i requires 0 <= i < 23 => FormatField(Get(values, UnivKeys[i])))
      + seq(6, _ => Text("None")) + MatchingStudents(students, id)
  }

  lemma {:induction false} MatchingStudentsSpec(students: seq<Resolvers.StudentRow>, id: int)
    ensures |MatchingStudents(students, id)| == 6 * CountStudents(students, id)
    ensures forall g :: 0 <= g < CountStudents(students, id) ==> MatchingStudents(students, id)[6 * g + 5] == Text("None")
    ensures CountStudents(students, id) == 0 <==> forall s :: s in students ==> s.id != id
  {
    if students != [] {
      var init := students[..|students| - 1];
      MatchingStudentsSpec(init, id);
      assert students == init + [students[|students| - 1]];
      var n := CountStudents(init, id);
      if students[|students| - 1].id == id {
        forall g | 0 <= g < n + 1
          ensures MatchingStudents(students, id)[6 * g + 5] == Text("None")
        {
          if g < n {
            assert MatchingStudents(students, id)[6 * g + 5] == MatchingStudents(init, id)[6 * g + 5];
          }
        }
      }
    }
  }

  /** A university row has 30 cells plus six per matching student; the six lookups named after
      student columns always read "None", and so does the last cell of every student group. */
  lemma UnivRowLayout(id: int, values: Fields, students: seq<Resolvers.StudentRow>)
    ensures var row := UnivRowCells(id, values, students);
      && |row| == 30 + 6 * CountStudents(students, id)
      && row[24..30] == seq(6, _ => Text("None"))
      && (forall g :: 0 <= g < CountStudents(students, id) ==> row[30 + 6 * g + 5] == Text("None"))
      && (forall i :: 0 <= i < 23 ==> row[i + 1] == FormatField(Get(values, UnivKeys[i])))
    ensures |UnivHeader| == 30
  {
    MatchingStudentsSpec(students, id);
    var row := UnivRowCells(id, values, students);
    var base := [Text(Decimal(id))] + seq(23, i requires 0 <= i < 23 => FormatField(Get(values, UnivKeys[i])))
      + seq(6, _ => Text("None"));
    assert row == base + MatchingStudents(students, id);
    forall g | 0 <= g < CountStudents(students, id)
      ensures row[30 + 6 * g + 5] == Text("None")
    {
      assert row[30 + 6 * g + 5] == MatchingStudents(students, id)[6 * g + 5];
    }
  }

  /** The row of `save_universitarios_to_txt`: the comprehension, then the loop that extends it
      for each matching student. */
  method BuildUnivRow(id: int, values: Fields, students: seq<Resolvers.StudentRow>) returns (row: seq<Cell>)
    ensures row == UnivRowCells(id, values, students)
  {
    row := [Text(Decimal(id))] + seq(23, i requires 0 <= i < 23 => FormatField(Get(values, UnivKeys[i])))
      + seq(6, _ => Text("None"));
    ghost var base := row;
    for i := 0 to |students|
      invariant row == base + MatchingStudents(students[..i], id)
    {
      assert students[..i + 1][..i] == students[..i];
      if students[i].id == id {
        row := row + StudentCells(students[i]);
      }
    }
    assert students[..|students|] == students;
  }

  function UnivRender(students: seq<Resolvers.StudentRow>, id: int, values: Fields): Result<string>
  {
    JoinCells(UnivRowCells(id, values, students))
  }

  /** `save_universitarios_to_txt`. */
  function SaveUnivSpec(data: ODict<Fields>, students: seq<Resolvers.StudentRow>): Saved
    requires forall k :: k in data.keys ==> k in data.vals
  {
    var rows := Lines(data.keys, data.vals, (id, values) => UnivRender(students, id, values));
    Saved([Join(UnivHeader, ';')] + rows.lines, rows.complete)
  }

  /** With no records, as at its one call site, the university report is the header alone;
      a matching student whose FACULDADE is NULL or a number makes the row raise, since the
      student values are joined unformatted. */
  lemma SaveUnivLayout(data: ODict<Fields>, students: seq<Resolvers.StudentRow>)
    requires forall k :: k in data.keys ==> k in data.vals
    ensures data.keys == [] ==> SaveUnivSpec(data, students) == Saved([Join(UnivHeader, ';')], true)
    ensures forall id, values, i :: 0 <= i < |students| && students[i].id == id && !students[i].faculdade.Text? ==>
      UnivRender(students, id, values).Raised?
  {
    forall id, values, i | 0 <= i < |students| && students[i].id == id && !students[i].faculdade.Text?
      ensures UnivRender(students, id, values).Raised?
    {
      StudentAppears(students, id, i);
      var row := UnivRowCells(id, values, students);
      var base := [Text(Decimal(id))] + seq(23, i requires 0 <= i < 23 => FormatField(Get(values, UnivKeys[i])))
        + seq(6, _ => Text("None"));
      assert row == base + MatchingStudents(students, id);
      assert students[i].faculdade in row;
    }
  }

  /** The cells of a matching student appear in the row. */
  lemma {:induction false} StudentAppears(students: seq<Resolvers.StudentRow>, id: int, i: nat)
    requires i < |students| && students[i].id == id
    ensures students[i].faculdade in MatchingStudents(students, id)
  {
    var init := students[..|students| - 1];
    if i < |students| - 1 {
      StudentAppears(init, id, i);
    } else {
      assert StudentCells(students[i])[0] == students[i].faculdade;
    }
  }
}
