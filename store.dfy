/** The SQLite partitions as the resolvers see them: each file is absent, lacks its table,
    or holds a table given as a sequence of rows. A `SELECT ... WHERE ...` is a filter over
    that sequence that keeps table order (SQLite promises no order; table order is one
    admissible answer). Also the batched `WHERE key IN (batch) AND attr IN (wants)` walk
    that several resolvers share. */
module Store {
  import opened PyText
  import opened Batches

  /** What escapes from a resolver: the FileNotFoundError raised by `connect_to_database`,
      the Exception raised for a missing table, or a TypeError on a malformed column. */
  datatype PyError = FileNotFound | TableMissing | TypeError

  datatype Result<+T> = Ok(value: T) | Raised(error: PyError)

  /** One database file: missing, present without the expected table, or with its rows. */
  datatype Db<R> = NoFile | NoTable | Table(rows: seq<R>)

  /** The srs_enderecos columns the resolvers filter on. */
  datatype AddressRow = AddressRow(id: int, uf: Cell, cidade: Cell, bairro: Cell, cep: Cell)

  /** The SRS_CONTATOS columns the resolvers filter on. */
  datatype ContactRow = ContactRow(
    id: int, nome: Cell, ufEmissao: Cell, sexo: Cell, nasc: Cell, dtOb: Cell, faixaRenda: Cell, cbo: Cell)

  /** The SRS_TB_MODELOS_ANALYTICS_SCORE column the risk resolver filters on. */
  datatype ScoreRow = ScoreRow(id: int, csbaFaixa: Cell)

  /** The SRS_TB_TSE column the electoral-title resolver filters on. */
  datatype TseRow = TseRow(id: int, titulo: Cell)

  function AddressId(a: AddressRow): int { a.id }
  function ContactId(c: ContactRow): int { c.id }
  function ContactName(c: ContactRow): Cell { c.nome }
  function ContactUf(c: ContactRow): Cell { c.ufEmissao }
  function ContactIncome(c: ContactRow): Cell { c.faixaRenda }
  function ContactCbo(c: ContactRow): Cell { c.cbo }
  function ScoreId(s: ScoreRow): int { s.id }
  function ScoreBand(s: ScoreRow): Cell { s.csbaFaixa }

  /** A column compared with `= ?` against a bound string: NULL and numbers never match. */
  predicate Fits(c: Cell, want: Option<string>)
  {
    want.None? || c == Text(want.value)
  }

  /** A conjunction of `COLUMN = ?` tests on srs_enderecos; None leaves a column free. */
  datatype AddressQuery = AddressQuery(uf: Option<string>, cidade: Option<string>, bairro: Option<string>, cep: Option<string>)

  predicate AddressMatches(a: AddressRow, q: AddressQuery)
  {
    Fits(a.uf, q.uf) && Fits(a.cidade, q.cidade) && Fits(a.bairro, q.bairro) && Fits(a.cep, q.cep)
  }

  /** `SELECT CONTATOS_ID FROM srs_enderecos WHERE ...`: one id per matching row, in table
      order, duplicates kept. */
  function AddressIds(rows: seq<AddressRow>, q: AddressQuery): (ids: seq<int>)
    ensures |ids| <= |rows|
    ensures forall x :: x in ids <==> exists a :: a in rows && AddressMatches(a, q) && a.id == x
    ensures ids == [] <==> forall a :: a in rows ==> !AddressMatches(a, q)
  {
    if rows == [] then []
    else
      var rest := AddressIds(rows[..|rows| - 1], q);
      var a := rows[|rows| - 1];
      assert rows == rows[..|rows| - 1] + [a];
      rest + (if AddressMatches(a, q) then [a.id] else [])
  }

  /** `SELECT DISTINCT`: first occurrences in order. */
  function Distinct(s: seq<int>): (r: seq<int>)
    ensures forall x :: x in r <==> x in s
    ensures forall i, j :: 0 <= i < j < |r| ==> r[i] != r[j]
  {
    if s == [] then []
    else
      var rest := Distinct(s[..|s| - 1]);
      var x := s[|s| - 1];
      assert s == s[..|s| - 1] + [x];
      if x in rest then rest else rest + [x]
  }

  /** The ids one `SELECT id FROM t WHERE key IN (batch) AND attr IN (wants)` returns,
      table order, one per matching row. */
  function BatchHits<K(==), R>(batch: seq<K>, rows: seq<R>, key: R -> K, attr: R -> Cell, wants: seq<Cell>, id: R -> int): seq<int>
  {
    if rows == [] then []
    else
      (if key(rows[0]) in batch && attr(rows[0]) in wants then [id(rows[0])] else [])
      + BatchHits(batch, rows[1..], key, attr, wants, id)
  }

  /** The concatenated answers of one such query per batch. */
  function ScanBatches<K(==), R>(batches: seq<seq<K>>, rows: seq<R>, key: R -> K, attr: R -> Cell, wants: seq<Cell>, id: R -> int): seq<int>
  {
    if batches == [] then []
    else BatchHits(batches[0], rows, key, attr, wants, id) + ScanBatches(batches[1..], rows, key, attr, wants, id)
  }

  lemma {:induction false} BatchHitsMembership<K, R>(batch: seq<K>, rows: seq<R>, key: R -> K, attr: R -> Cell, wants: seq<Cell>, id: R -> int, x: int)
    ensures x in BatchHits(batch, rows, key, attr, wants, id) <==>
      exists r :: r in rows && key(r) in batch && attr(r) in wants && id(r) == x
  {
    if rows != [] {
      BatchHitsMembership(batch, rows[1..], key, attr, wants, id, x);
      assert rows == [rows[0]] + rows[1..];
    }
  }

  /** Some batch holds the key. */
  ghost predicate InSomeBatch<K>(batches: seq<seq<K>>, k: K)
  {
    exists b :: b in batches && k in b
  }

  lemma InSomeBatchStep<K>(batches: seq<seq<K>>, k: K)
    requires batches != []
    ensures InSomeBatch(batches, k) <==> k in batches[0] || InSomeBatch(batches[1..], k)
  {
    assert batches == [batches[0]] + batches[1..];
    if InSomeBatch(batches, k) {
      var b :| b in batches && k in b;
      if b != batches[0] {
        assert b in batches[1..];
      }
    }
    if InSomeBatch(batches[1..], k) {
      var b :| b in batches[1..] && k in b;
      assert b in batches;
    }
  }

  lemma {:induction false} ScanMembership<K, R>(batches: seq<seq<K>>, rows: seq<R>, key: R -> K, attr: R -> Cell, wants: seq<Cell>, id: R -> int, x: int)
    ensures x in ScanBatches(batches, rows, key, attr, wants, id) <==>
      exists r :: r in rows && InSomeBatch(batches, key(r)) && attr(r) in wants && id(r) == x
  {
    if batches != [] {
      ScanMembership(batches[1..], rows, key, attr, wants, id, x);
      BatchHitsMembership(batches[0], rows, key, attr, wants, id, x);
      forall r | r in rows
        ensures InSomeBatch(batches, key(r)) <==> key(r) in batches[0] || InSomeBatch(batches[1..], key(r))
      {
        InSomeBatchStep(batches, key(r));
      }
    }
  }

  /** Batching is invisible to membership: an id comes back from the batched walk over
      `stage` exactly when some row has its key in `stage`, its attribute among `wants`
      and that id. */
  lemma ChunkedScanMembership<K, R>(stage: seq<K>, rows: seq<R>, key: R -> K, attr: R -> Cell, wants: seq<Cell>, id: R -> int, x: int)
    ensures x in ScanBatches(Chunks(stage, QueryBatch), rows, key, attr, wants, id) <==>
      exists r :: r in rows && key(r) in stage && attr(r) in wants && id(r) == x
  {
    var cs := Chunks(stage, QueryBatch);
    ScanMembership(cs, rows, key, attr, wants, id, x);
    forall r | r in rows
      ensures InSomeBatch(cs, key(r)) <==> key(r) in stage
    {
      InSomeChunk(stage, QueryBatch, key(r));
    }
  }

  /** One turn of the batch loop: the walk from `i` is the batch `stage[i:i + 999]` followed
      by the walk from where that batch ends. */
  lemma ScanFrom<K, R>(stage: seq<K>, i: nat, rows: seq<R>, key: R -> K, attr: R -> Cell, wants: seq<Cell>, id: R -> int)
    requires i < |stage|
    ensures ScanBatches(Chunks(stage[i..], QueryBatch), rows, key, attr, wants, id)
      == BatchHits(stage[i..Min(i + QueryBatch, |stage|)], rows, key, attr, wants, id)
         + ScanBatches(Chunks(stage[Min(i + QueryBatch, |stage|)..], QueryBatch), rows, key, attr, wants, id)
  {
    var j := Min(i + QueryBatch, |stage|);
    var rest := stage[i..];
    assert rest[..j - i] == stage[i..j] && rest[j - i..] == stage[j..];
    assert Chunks(rest, QueryBatch) == [stage[i..j]] + Chunks(stage[j..], QueryBatch);
  }

  /** The resolvers' batch loop: for each slice `stage[i:i + 999]`, run the query and
      extend the result with the ids it returns. */
  method RunBatches<K(==), R>(stage: seq<K>, rows: seq<R>, key: R -> K, attr: R -> Cell, wants: seq<Cell>, id: R -> int)
    returns (valid: seq<int>)
    ensures valid == ScanBatches(Chunks(stage, QueryBatch), rows, key, attr, wants, id)
  {
    valid := [];
    var i := 0;
    assert stage[0..] == stage;
    while i < |stage|
      invariant 0 <= i <= |stage|
      invariant valid + ScanBatches(Chunks(stage[i..], QueryBatch), rows, key, attr, wants, id)
             == ScanBatches(Chunks(stage, QueryBatch), rows, key, attr, wants, id)
    {
      var j := Min(i + QueryBatch, |stage|);
      ScanFrom(stage, i, rows, key, attr, wants, id);
      valid := valid + BatchHits(stage[i..j], rows, key, attr, wants, id);
      i := j;
    }
    assert stage[|stage|..] == [];
  }
}
