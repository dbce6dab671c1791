/** The enrichment of one CONTATOS_ID (`process_contato_id`) and of one dispatch chunk
    (`process_contato_ids_chunk`). Each database call is replaced by its outcome; the
    `fetch_*` helpers are methods that update the one record they are given. */
module Enrichment {
  import opened PyText
  import opened PyDict
  import opened Store

  /** The columns of srs_enderecos copied into a record, once per address slot. */
  datatype AddrCol = LogrNome | LogrNumero | LogrComplemento | Bairro | Cidade | Cep

  /** The SRS_CONTATOS columns of a record, in the order the query selects them. */
  datatype CoreCol = Cpf | Nome | Sexo | Nasc | CboCode | Renda | FaixaRendaId

  /** The SRS_TB_MODELOS_ANALYTICS_SCORE columns, in query order. */
  datatype ScoreCol = Csb8 | Csb8Faixa | Csba | CsbaFaixa

  /** The SRS_TB_TSE columns, in query order. */
  datatype TseCol = TituloEleitor | Zona | Secao

  /** The keys of a lead record, grouped by the block that writes them. Distinct keys stand
      for distinct Python strings; `Name` gives the string itself. TELEFONE_SECUNDARIO is
      read by the report and written by nobody. */
  datatype Key =
    | Core(core: CoreCol)
    | Addr(col: AddrCol, slot: nat)
    | Score(score: ScoreCol)
    | Tse(tse: TseCol)
    | Ddd | Telefone | TelefoneSecundario | Email

  function CoreName(c: CoreCol): string
  {
    match c
    case Cpf => "CPF"
    case Nome => "NOME"
    case Sexo => "SEXO"
    case Nasc => "NASC"
    case CboCode => "CBO"
    case Renda => "RENDA"
    case FaixaRendaId => "FAIXA_RENDA_ID"
  }

  function ColName(c: AddrCol): string
  {
    match c
    case LogrNome => "LOGR_NOME"
    case LogrNumero => "LOGR_NUMERO"
    case LogrComplemento => "LOGR_COMPLEMENTO"
    case Bairro => "BAIRRO"
    case Cidade => "CIDADE"
    case Cep => "CEP"
  }

  /** The Python key string; an address key is `f"{field}{index}"`. */
  function Name(k: Key): string
  {
    match k
    case Core(c) => CoreName(c)
    case Addr(c, slot) => ColName(c) + Decimal(slot)
    case Score(Csb8) => "CSB8"
    case Score(Csb8Faixa) => "CSB8_FAIXA"
    case Score(Csba) => "CSBA"
    case Score(CsbaFaixa) => "CSBA_FAIXA"
    case Tse(TituloEleitor) => "TITULO_ELEITOR"
    case Tse(Zona) => "ZONA"
    case Tse(Secao) => "SECAO"
    case Ddd => "DDD"
    case Telefone => "TELEFONE"
    case TelefoneSecundario => "TELEFONE_SECUNDARIO"
    case Email => "EMAIL"
  }

  /** The fields of one lead record. */
  type Fields = map<Key, Value>

  /** What one database call did for this id: a row (its columns, or for a `fetchall`
      the first column of every row), no row, `sqlite3.DatabaseError`,
      `UnicodeDecodeError`, a missing table, or a database file that could not be
      opened. */
  datatype Outcome = Row(cells: seq<Cell>) | NoRow | DbError | DecodeError | MissingTable | ConnectFail

  /** The outcome of each call `process_contato_id` makes for one id. Both slots of the
      address use the one `address` outcome: they run the same `fetchone` query. A
      connection failure on either phone call stands for Telefones.db failing to open. */
  datatype Lookups = Lookups(core: Outcome, ddd: Outcome, telefone: Outcome, email: Outcome, address: Outcome, scores: Outcome, tse: Outcome)

  const CoreKeys: seq<Key> :=
    [Core(Cpf), Core(Nome), Core(Sexo), Core(Nasc), Core(CboCode), Core(Renda), Core(FaixaRendaId)]
  const AddressCols: seq<AddrCol> := [LogrNome, LogrNumero, LogrComplemento, Bairro, Cidade, Cep]
  const ScoreKeys: seq<Key> := [Score(Csb8), Score(Csb8Faixa), Score(Csba), Score(CsbaFaixa)]
  const TseKeys: seq<Key> := [Tse(TituloEleitor), Tse(Zona), Tse(Secao)]

  /** The column of the core query that fills `Core(c)`. */
  function CoreIndex(c: CoreCol): (i: nat)
    ensures i < 7 && CoreKeys[i] == Core(c)
  {
    match c
    case Cpf => 0
    case Nome => 1
    case Sexo => 2
    case Nasc => 3
    case CboCode => 4
    case Renda => 5
    case FaixaRendaId => 6
  }

  function ScoreIndex(c: ScoreCol): (i: nat)
    ensures i < 4 && ScoreKeys[i] == Score(c)
  {
    match c
    case Csb8 => 0
    case Csb8Faixa => 1
    case Csba => 2
    case CsbaFaixa => 3
  }

  function TseIndex(c: TseCol): (i: nat)
    ensures i < 3 && TseKeys[i] == Tse(c)
  {
    match c
    case TituloEleitor => 0
    case Zona => 1
    case Secao => 2
  }

  function AddrIndex(c: AddrCol): (i: nat)
    ensures i < 6 && AddressCols[i] == c
  {
    match c
    case LogrNome => 0
    case LogrNumero => 1
    case LogrComplemento => 2
    case Bairro => 3
    case Cidade => 4
    case Cep => 5
  }

  /** The six address keys of one slot. */
  function SlotKeys(slot: nat): (r: seq<Key>)
    ensures |r| == 6
    ensures forall i :: 0 <= i < 6 ==> r[i] == Addr(AddressCols[i], slot)
  {
    seq(6, i requires 0 <= i < 6 => Addr(AddressCols[i], slot))
  }

  const NoneText: Value := Scalar(Text("None"))
  const ErrText: Value := Scalar(Text("Erro"))
  const NoneList: Value := Listed([Text("None")])

  /** A `fetchone` of `n` columns yields exactly `n` cells. */
  predicate FitsArity(o: Outcome, n: nat)
  {
    o.Row? ==> |o.cells| == n
  }

  /** A non-empty `fetchall` yields at least one cell. */
  predicate FetchedSome(o: Outcome)
  {
    o.Row? ==> |o.cells| >= 1
  }

  /** The shapes SQLite guarantees for the queries `process_contato_id` runs. */
  predicate WellFormed(l: Lookups)
  {
    && FitsArity(l.core, 7) && FetchedSome(l.ddd) && FetchedSome(l.telefone) && FetchedSome(l.email)
    && FitsArity(l.address, 6) && FitsArity(l.scores, 4) && FitsArity(l.tse, 3)
  }

  // ----- Writing a block of keys -----

  /** Every key of `keys` set to `v`. */
  function Fill(m: Fields, keys: seq<Key>, v: Value): Fields
  {
    if keys == [] then m else Fill(m, keys[..|keys| - 1], v)[keys[|keys| - 1] := v]
  }

  /** Key `keys[i]` set to the `i`-th cell. */
  function FillCells(m: Fields, keys: seq<Key>, cells: seq<Cell>): Fields
    requires |keys| == |cells|
  {
    if keys == [] then m
    else FillCells(m, keys[..|keys| - 1], cells[..|cells| - 1])[keys[|keys| - 1] := Scalar(cells[|cells| - 1])]
  }

  predicate NoDup(keys: seq<Key>)
  {
    forall i, j :: 0 <= i < j < |keys| ==> keys[i] != keys[j]
  }

  lemma {:induction false} FillSpec(m: Fields, keys: seq<Key>, v: Value)
    ensures forall k :: k in Fill(m, keys, v) <==> k in m || k in keys
    ensures forall k :: k in keys ==> Fill(m, keys, v)[k] == v
    ensures forall k :: k !in keys && k in m ==> Fill(m, keys, v)[k] == m[k]
  {
    if keys != [] {
      FillSpec(m, keys[..|keys| - 1], v);
      assert keys == keys[..|keys| - 1] + [keys[|keys| - 1]];
    }
  }

  lemma {:induction false} FillCellsSpec(m: Fields, keys: seq<Key>, cells: seq<Cell>)
    requires |keys| == |cells| && NoDup(keys)
    ensures forall k :: k in FillCells(m, keys, cells) <==> k in m || k in keys
    ensures forall i :: 0 <= i < |keys| ==> FillCells(m, keys, cells)[keys[i]] == Scalar(cells[i])
    ensures forall k :: k !in keys && k in m ==> FillCells(m, keys, cells)[k] == m[k]
  {
    if keys != [] {
      var n := |keys| - 1;
      FillCellsSpec(m, keys[..n], cells[..n]);
      assert keys == keys[..n] + [keys[n]];
      forall i | 0 <= i < n
        ensures keys[..n][i] != keys[n]
      {
      }
    }
  }

  // ----- The helpers, as functions of the record before and after -----

  /** `fetch_contato_data_by_contatos_id`, `fetch_scores_data`, `fetch_tse_data`: the
      row's columns, "None" for no row or a decoding error, "Erro" for a database error
      (a missing table surfaces as one). A failed connection leaves the record as it is. */
  function ScalarBlock(m: Fields, keys: seq<Key>, o: Outcome): Fields
    requires FitsArity(o, |keys|)
  {
    match o
    case Row(cells) => FillCells(m, keys, cells)
    case NoRow => Fill(m, keys, NoneText)
    case DecodeError => Fill(m, keys, NoneText)
    case DbError => Fill(m, keys, ErrText)
    case MissingTable => Fill(m, keys, ErrText)
    case ConnectFail => m
  }

  /** `fetch_missing_address_data`: the row's columns or "None" for no row. Every failure
      of the query raises from its handler (the field list it loops over is not yet bound
      there), so nothing is written. */
  function AddressBlock(m: Fields, slot: nat, o: Outcome): Fields
    requires FitsArity(o, 6)
  {
    match o
    case Row(cells) => FillCells(m, SlotKeys(slot), cells)
    case NoRow => Fill(m, SlotKeys(slot), NoneText)
    case DbError => m
    case DecodeError => m
    case MissingTable => m
    case ConnectFail => m
  }

  /** `fetch_missing_data`: the list of values, or `["None"]` for no rows or an error; a
      missing table returns before writing. */
  function ListField(m: Fields, k: Key, o: Outcome): Fields
  {
    match o
    case Row(cells) => m[k := Listed(cells)]
    case NoRow => m[k := NoneList]
    case DbError => m[k := NoneList]
    case DecodeError => m[k := NoneList]
    case MissingTable => m
    case ConnectFail => m
  }

  predicate PhonesDown(l: Lookups)
  {
    l.ddd.ConnectFail? || l.telefone.ConnectFail?
  }

  /** The Telefones.db block: both lists, or `["None"]` for both when the file cannot be
      opened. */
  function PhoneBlock(m: Fields, l: Lookups): Fields
  {
    if PhonesDown(l) then m[Ddd := NoneList][Telefone := NoneList]
    else ListField(ListField(m, Ddd, l.ddd), Telefone, l.telefone)
  }

  /** The Email.db block. */
  function EmailBlock(m: Fields, l: Lookups): Fields
  {
    if l.email.ConnectFail? then m[Email := NoneList] else ListField(m, Email, l.email)
  }

  /** The blocks that read Contatos.db, Telefones.db and Email.db. */
  function ContactBlocks(l: Lookups): Fields
    requires FitsArity(l.core, 7)
  {
    EmailBlock(PhoneBlock(ScalarBlock(map[], CoreKeys, l.core), l), l)
  }

  /** The blocks that read Enderecos.db (both slots run the same query), Scores.db and
      TSE.db. */
  function ExtraBlocks(m: Fields, l: Lookups): Fields
    requires FitsArity(l.address, 6) && FitsArity(l.scores, 4) && FitsArity(l.tse, 3)
  {
    var m3 := AddressBlock(AddressBlock(m, 1, l.address), 2, l.address);
    ScalarBlock(ScalarBlock(m3, ScoreKeys, l.scores), TseKeys, l.tse)
  }

  /** `process_contato_id`: None when Contatos.db cannot be opened (the whole id is
      dropped), otherwise the record after every block in source order. */
  function Enrich(l: Lookups): (r: Option<Fields>)
    requires WellFormed(l)
    ensures r.None? <==> l.core.ConnectFail?
  {
    if l.core.ConnectFail? then None else Some(ExtraBlocks(ContactBlocks(l), l))
  }

  // ----- An independent, key-by-key account of the record -----

  /** What a scalar lookup leaves under its `i`-th column. */
  function ScalarRule(o: Outcome, i: nat): Option<Value>
    requires o.Row? ==> i < |o.cells|
  {
    match o
    case Row(cells) => Some(Scalar(cells[i]))
    case NoRow => Some(NoneText)
    case DecodeError => Some(NoneText)
    case DbError => Some(ErrText)
    case MissingTable => Some(ErrText)
    case ConnectFail => None
  }

  /** What the address lookup leaves under its `i`-th column, in either slot. */
  function AddressRule(o: Outcome, i: nat): Option<Value>
    requires o.Row? ==> i < |o.cells|
  {
    match o
    case Row(cells) => Some(Scalar(cells[i]))
    case NoRow => Some(NoneText)
    case DbError => None
    case DecodeError => None
    case MissingTable => None
    case ConnectFail => None
  }

  /** What a list lookup leaves: `["None"]` if its database could not be opened, the
      values, `["None"]` for no rows or an error, nothing for a missing table. */
  function ListRule(o: Outcome, down: bool): Option<Value>
  {
    if down then Some(NoneList)
    else match o
      case Row(cells) => Some(Listed(cells))
      case MissingTable => None
      case ConnectFail => None
      case NoRow => Some(NoneList)
      case DbError => Some(NoneList)
      case DecodeError => Some(NoneList)
  }

  /** The value each key of an enriched record holds, None where the key is absent. */
  function Expected(l: Lookups, k: Key): Option<Value>
    requires WellFormed(l)
  {
    match k
    case Core(c) => ScalarRule(l.core, CoreIndex(c))
    case Addr(c, slot) => if slot == 1 || slot == 2 then AddressRule(l.address, AddrIndex(c)) else None
    case Score(c) => ScalarRule(l.scores, ScoreIndex(c))
    case Tse(c) => ScalarRule(l.tse, TseIndex(c))
    case Ddd => ListRule(l.ddd, PhonesDown(l))
    case Telefone => ListRule(l.telefone, PhonesDown(l))
    case Email => ListRule(l.email, l.email.ConnectFail?)
    case TelefoneSecundario => None
  }

  /** One scalar block at one key: a key of the block that was absent before gets the
      block's rule; any other key is untouched. */
  lemma ScalarBlockAt(m: Fields, keys: seq<Key>, o: Outcome, i: nat, k: Key)
    requires FitsArity(o, |keys|) && NoDup(keys)
    ensures i < |keys| && keys[i] == k && k !in m ==>
      (k in ScalarBlock(m, keys, o) <==> ScalarRule(o, i).Some?) &&
      (k in ScalarBlock(m, keys, o) ==> ScalarBlock(m, keys, o)[k] == ScalarRule(o, i).value)
    ensures k !in keys ==>
      (k in ScalarBlock(m, keys, o) <==> k in m) && (k in m ==> ScalarBlock(m, keys, o)[k] == m[k])
  {
    match o
    case Row(cells) => FillCellsSpec(m, keys, cells);
    case NoRow => FillSpec(m, keys, NoneText);
    case DecodeError => FillSpec(m, keys, NoneText);
    case DbError => FillSpec(m, keys, ErrText);
    case MissingTable => FillSpec(m, keys, ErrText);
    case ConnectFail =>
  }

  /** One address block at one key: a key of the slot that was absent before gets the
      address rule; any other key is untouched. */
  lemma AddressBlockAt(m: Fields, slot: nat, o: Outcome, k: Key)
    requires FitsArity(o, 6)
    ensures k.Addr? && k.slot == slot && k !in m ==>
      (k in AddressBlock(m, slot, o) <==> AddressRule(o, AddrIndex(k.col)).Some?) &&
      (k in AddressBlock(m, slot, o) ==> AddressBlock(m, slot, o)[k] == AddressRule(o, AddrIndex(k.col)).value)
    ensures !(k.Addr? && k.slot == slot) ==>
      (k in AddressBlock(m, slot, o) <==> k in m) && (k in m ==> AddressBlock(m, slot, o)[k] == m[k])
  {
    var keys := SlotKeys(slot);
    if k.Addr? && k.slot == slot {
      assert k == keys[AddrIndex(k.col)];
    } else {
      assert k !in keys;
    }
    match o
    case Row(cells) => FillCellsSpec(m, keys, cells);
    case NoRow => FillSpec(m, keys, NoneText);
    case DbError =>
    case DecodeError =>
    case MissingTable =>
    case ConnectFail =>
  }

  lemma PhoneBlockAt(m: Fields, l: Lookups, k: Key)
    ensures k != Ddd && k != Telefone ==> (k in PhoneBlock(m, l) <==> k in m) && (k in m ==> PhoneBlock(m, l)[k] == m[k])
    ensures k == Ddd && k !in m ==>
      (k in PhoneBlock(m, l) <==> ListRule(l.ddd, PhonesDown(l)).Some?) &&
      (k in PhoneBlock(m, l) ==> PhoneBlock(m, l)[k] == ListRule(l.ddd, PhonesDown(l)).value)
    ensures k == Telefone && k !in m ==>
      (k in PhoneBlock(m, l) <==> ListRule(l.telefone, PhonesDown(l)).Some?) &&
      (k in PhoneBlock(m, l) ==> PhoneBlock(m, l)[k] == ListRule(l.telefone, PhonesDown(l)).value)
  {
  }

  lemma EmailBlockAt(m: Fields, l: Lookups, k: Key)
    ensures k != Email ==> (k in EmailBlock(m, l) <==> k in m) && (k in m ==> EmailBlock(m, l)[k] == m[k])
    ensures k == Email && k !in m ==>
      (k in EmailBlock(m, l) <==> ListRule(l.email, l.email.ConnectFail?).Some?) &&
      (k in EmailBlock(m, l) ==> EmailBlock(m, l)[k] == ListRule(l.email, l.email.ConnectFail?).value)
  {
  }

  /** The keys the extra blocks write. */
  predicate ExtraKey(k: Key)
  {
    k.Addr? || k.Score? || k.Tse?
  }

  lemma ContactBlocksAt(l: Lookups, k: Key)
    requires WellFormed(l) && !l.core.ConnectFail?
    ensures !ExtraKey(k) ==>
      (k in ContactBlocks(l) <==> Expected(l, k).Some?) &&
      (k in ContactBlocks(l) ==> ContactBlocks(l)[k] == Expected(l, k).value)
    ensures ExtraKey(k) ==> k !in ContactBlocks(l)
  {
    if k.Core? {
      CoreBlockAt(l, k);
    } else {
      ListBlocksAt(l, k);
    }
  }

  lemma CoreBlockAt(l: Lookups, k: Key)
    requires WellFormed(l) && !l.core.ConnectFail? && k.Core?
    ensures k in ContactBlocks(l) <==> ScalarRule(l.core, CoreIndex(k.core)).Some?
    ensures k in ContactBlocks(l) ==> ContactBlocks(l)[k] == ScalarRule(l.core, CoreIndex(k.core)).value
  {
    var m0 := ScalarBlock(map[], CoreKeys, l.core);
    ScalarBlockAt(map[], CoreKeys, l.core, CoreIndex(k.core), k);
    PhoneBlockAt(m0, l, k);
    EmailBlockAt(PhoneBlock(m0, l), l, k);
  }

  lemma ListBlocksAt(l: Lookups, k: Key)
    requires WellFormed(l) && !l.core.ConnectFail? && !k.Core?
    ensures k == Ddd || k == Telefone || k == Email ==>
      (k in ContactBlocks(l) <==> Expected(l, k).Some?) &&
      (k in ContactBlocks(l) ==> ContactBlocks(l)[k] == Expected(l, k).value)
    ensures k != Ddd && k != Telefone && k != Email ==> k !in ContactBlocks(l)
  {
    var m0 := ScalarBlock(map[], CoreKeys, l.core);
    assert k !in CoreKeys;
    ScalarBlockAt(map[], CoreKeys, l.core, 0, k);
    PhoneBlockAt(m0, l, k);
    EmailBlockAt(PhoneBlock(m0, l), l, k);
  }

  lemma ExtraBlocksAt(m: Fields, l: Lookups, k: Key)
    requires WellFormed(l)
    ensures !ExtraKey(k) ==> (k in ExtraBlocks(m, l) <==> k in m) && (k in m ==> ExtraBlocks(m, l)[k] == m[k])
    ensures ExtraKey(k) && k !in m ==>
      (k in ExtraBlocks(m, l) <==> Expected(l, k).Some?) &&
      (k in ExtraBlocks(m, l) ==> ExtraBlocks(m, l)[k] == Expected(l, k).value)
  {
    var m25 := AddressBlock(m, 1, l.address);
    var m3 := AddressBlock(m25, 2, l.address);
    var m4 := ScalarBlock(m3, ScoreKeys, l.scores);
    AddressBlockAt(m, 1, l.address, k);
    AddressBlockAt(m25, 2, l.address, k);
    ScalarBlockAt(m3, ScoreKeys, l.scores, if k.Score? then ScoreIndex(k.score) else 0, k);
    ScalarBlockAt(m4, TseKeys, l.tse, if k.Tse? then TseIndex(k.tse) else 0, k);
  }

  /** The enriched record at one key agrees with the key-by-key account. */
  lemma EnrichAt(l: Lookups, k: Key)
    requires WellFormed(l) && !l.core.ConnectFail?
    ensures Enrich(l).Some?
    ensures k in Enrich(l).value <==> Expected(l, k).Some?
    ensures k in Enrich(l).value ==> Enrich(l).value[k] == Expected(l, k).value
  {
    ContactBlocksAt(l, k);
    ExtraBlocksAt(ContactBlocks(l), l, k);
  }

  /** The record `process_contato_id` returns holds, under every key, exactly the value the
      key-by-key account gives, and no other key. */
  lemma EnrichPerKey(l: Lookups)
    requires WellFormed(l) && !l.core.ConnectFail?
    ensures Enrich(l).Some?
    ensures forall k :: (k in Enrich(l).value <==> Expected(l, k).Some?) &&
                        (k in Enrich(l).value ==> Enrich(l).value[k] == Expected(l, k).value)
  {
    forall k
      ensures (k in Enrich(l).value <==> Expected(l, k).Some?) &&
              (k in Enrich(l).value ==> Enrich(l).value[k] == Expected(l, k).value)
    {
      EnrichAt(l, k);
    }
  }

  /** Both address slots always agree: slot 2 reruns slot 1's `fetchone`. */
  lemma AddressSlotsAgree(l: Lookups, c: AddrCol)
    requires WellFormed(l) && !l.core.ConnectFail?
    ensures Addr(c, 1) in Enrich(l).value <==> Addr(c, 2) in Enrich(l).value
    ensures Addr(c, 1) in Enrich(l).value ==> Enrich(l).value[Addr(c, 1)] == Enrich(l).value[Addr(c, 2)]
  {
    EnrichPerKey(l);
  }

  /** The core block writes all seven fields together: all "Erro" on a database error or a
      missing table, all "None" on no row or a decoding error, each column of the row
      otherwise. */
  lemma CoreBlockUniform(l: Lookups, c: CoreCol)
    requires WellFormed(l) && !l.core.ConnectFail?
    ensures Core(c) in Enrich(l).value
    ensures l.core.DbError? || l.core.MissingTable? ==> Enrich(l).value[Core(c)] == ErrText
    ensures l.core.NoRow? || l.core.DecodeError? ==> Enrich(l).value[Core(c)] == NoneText
    ensures l.core.Row? ==> Enrich(l).value[Core(c)] == Scalar(l.core.cells[CoreIndex(c)])
  {
    EnrichAt(l, Core(c));
  }

  /** An address query that fails leaves no address key at all, in either slot; "Erro" is
      never written for an address. */
  lemma AddressFailureWritesNothing(l: Lookups, c: AddrCol, slot: nat)
    requires WellFormed(l) && !l.core.ConnectFail?
    ensures Addr(c, slot) in Enrich(l).value <==> (slot == 1 || slot == 2) && (l.address.Row? || l.address.NoRow?)
    ensures Addr(c, slot) in Enrich(l).value && !l.address.Row? ==> Enrich(l).value[Addr(c, slot)] == NoneText
  {
    EnrichPerKey(l);
  }

  /** A missing phone or e-mail table leaves that key unset, while a database file that
      cannot be opened sets it to `["None"]`. */
  lemma MissingListTable(l: Lookups)
    requires WellFormed(l) && !l.core.ConnectFail?
    ensures l.ddd.MissingTable? && !l.telefone.ConnectFail? ==> Ddd !in Enrich(l).value
    ensures l.email.MissingTable? ==> Email !in Enrich(l).value
    ensures PhonesDown(l) ==> Ddd in Enrich(l).value && Enrich(l).value[Ddd] == NoneList
    ensures PhonesDown(l) ==> Telefone in Enrich(l).value && Enrich(l).value[Telefone] == NoneList
    ensures l.email.ConnectFail? ==> Email in Enrich(l).value && Enrich(l).value[Email] == NoneList
  {
    EnrichPerKey(l);
  }

  /** A score or electoral database that cannot be opened adds none of its keys. */
  lemma UnreachableStoresAddNothing(l: Lookups)
    requires WellFormed(l) && !l.core.ConnectFail?
    ensures l.scores.ConnectFail? ==> forall c :: Score(c) !in Enrich(l).value
    ensures l.tse.ConnectFail? ==> forall c :: Tse(c) !in Enrich(l).value
  {
    EnrichPerKey(l);
  }

  // ----- The record being filled in place -----

  /** `lead_data[contatos_id]`, the dictionary the helpers write into. */
  class LeadRecord {
    var fields: Fields

    /** `lead_data.update(fetch_contato_data_by_contatos_id(...))`. */
    constructor (core: Outcome)
      requires FitsArity(core, 7)
      ensures fields == ScalarBlock(map[], CoreKeys, core)
    {
      fields := ScalarBlock(map[], CoreKeys, core);
    }

    /** `fetch_missing_data(..., field, table)`. */
    method FetchMissingData(k: Key, o: Outcome)
      modifies this
      ensures fields == ListField(old(fields), k, o)
    {
      match o
      case Row(cells) => fields := fields[k := Listed(cells)];
      case MissingTable =>
      case ConnectFail =>
      case _ => fields := fields[k := NoneList];
    }

    /** The `except` of a block whose database could not be opened. */
    method SetNoneList(k: Key)
      modifies this
      ensures fields == old(fields)[k := NoneList]
    {
      fields := fields[k := NoneList];
    }

    /** `fetch_missing_address_data(..., index)`: the loop over the six address columns. */
    method FetchAddress(slot: nat, o: Outcome)
      requires FitsArity(o, 6)
      modifies this
      ensures fields == AddressBlock(old(fields), slot, o)
    {
      var keys := SlotKeys(slot);
      if o.Row? || o.NoRow? {
        for i := 0 to 6
          invariant o.Row? ==> fields == FillCells(old(fields), keys[..i], o.cells[..i])
          invariant o.NoRow? ==> fields == Fill(old(fields), keys[..i], NoneText)
        {
          assert keys[..i + 1][..i] == keys[..i];
          if o.Row? {
            assert o.cells[..i + 1][..i] == o.cells[..i];
            fields := fields[keys[i] := Scalar(o.cells[i])];
          } else {
            fields := fields[keys[i] := NoneText];
          }
        }
        assert keys[..6] == keys;
        assert o.Row? ==> o.cells[..6] == o.cells;
      }
    }

    /** `fetch_scores_data` and `fetch_tse_data`: one `dict.update` of their keys. */
    method FetchScalars(keys: seq<Key>, o: Outcome)
      requires FitsArity(o, |keys|)
      modifies this
      ensures fields == ScalarBlock(old(fields), keys, o)
    {
      fields := ScalarBlock(fields, keys, o);
    }
  }

  /** `process_contato_id`: one `try` per database, in source order. */
  method ProcessContatoId(l: Lookups) returns (r: Option<Fields>)
    requires WellFormed(l)
    ensures r == Enrich(l)
  {
    if l.core.ConnectFail? {
      return None;
    }
    var lead := new LeadRecord(l.core);
    if PhonesDown(l) {
      lead.SetNoneList(Ddd);
      lead.SetNoneList(Telefone);
    } else {
      lead.FetchMissingData(Ddd, l.ddd);
      lead.FetchMissingData(Telefone, l.telefone);
    }
    if l.email.ConnectFail? {
      lead.SetNoneList(Email);
    } else {
      lead.FetchMissingData(Email, l.email);
    }
    lead.FetchAddress(1, l.address);
    lead.FetchAddress(2, l.address);
    lead.FetchScalars(ScoreKeys, l.scores);
    lead.FetchScalars(TseKeys, l.tse);
    return Some(lead.fields);
  }

  // ----- process_contato_ids_chunk -----

  /** `chunk_data.update(process_contato_id(id))` for each id in turn. */
  function ChunkSpec(ids: seq<int>, env: map<int, Lookups>): ODict<Fields>
    requires forall id :: id in ids ==> id in env && WellFormed(env[id])
  {
    if ids == [] then Empty()
    else
      var rest := ChunkSpec(ids[..|ids| - 1], env);
      var id := ids[|ids| - 1];
      match Enrich(env[id])
      case None => rest
      case Some(f) => Put(rest, id, f)
  }

  /** The ids whose contact database could be opened, in order. */
  function Kept(ids: seq<int>, env: map<int, Lookups>): (r: seq<int>)
    requires forall id :: id in ids ==> id in env
    ensures forall x :: x in r <==> x in ids && !env[x].core.ConnectFail?
  {
    if ids == [] then []
    else
      var rest := Kept(ids[..|ids| - 1], env);
      var id := ids[|ids| - 1];
      assert ids == ids[..|ids| - 1] + [id];
      if env[id].core.ConnectFail? then rest else rest + [id]
  }

  /** A chunk's result is a valid dictionary holding one record per kept id, in order of
      first appearance, each the enrichment of that id; the dropped ids are absent. */
  lemma {:induction false} ChunkSpecSpec(ids: seq<int>, env: map<int, Lookups>)
    requires forall id :: id in ids ==> id in env && WellFormed(env[id])
    ensures Valid(ChunkSpec(ids, env))
    ensures ChunkSpec(ids, env).keys == Distinct(Kept(ids, env))
    ensures forall x :: x in ChunkSpec(ids, env).vals <==> x in ids && !env[x].core.ConnectFail?
    ensures forall x :: x in ChunkSpec(ids, env).vals ==> Some(ChunkSpec(ids, env).vals[x]) == Enrich(env[x])
  {
    if ids != [] {
      var init := ids[..|ids| - 1];
      var id := ids[|ids| - 1];
      ChunkSpecSpec(init, env);
      assert ids == init + [id];
      var rest := ChunkSpec(init, env);
      if !env[id].core.ConnectFail? {
        PutSpec(rest, id, Enrich(env[id]).value);
        assert Kept(ids, env) == Kept(init, env) + [id];
        assert Kept(ids, env)[..|Kept(ids, env)| - 1] == Kept(init, env);
      }
    }
  }

  /** `process_contato_ids_chunk`. */
  method ProcessChunk(ids: seq<int>, env: map<int, Lookups>) returns (chunk: ODict<Fields>)
    requires forall id :: id in ids ==> id in env && WellFormed(env[id])
    ensures chunk == ChunkSpec(ids, env)
  {
    chunk := Empty();
    for i := 0 to |ids|
      invariant chunk == ChunkSpec(ids[..i], env)
    {
      assert ids[..i + 1][..i] == ids[..i];
      var id := ids[i];
      assert id in ids;
      assert id in env && WellFormed(env[id]);
      var l := env[id];
      var r := ProcessContatoId(l);
      if r.Some? {
        chunk := Put(chunk, ids[i], r.value);
      }
    }
    assert ids[..|ids|] == ids;
  }
}
