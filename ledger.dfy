/**
 * The `pix` and `fechamento_diario` tables of database.py as values, and the
 * queries over them: the specification that the `Database` class is proved
 * against.
 *
 * The `pix` table is a sequence of rows in rowid order (the AUTOINCREMENT `id`
 * is the position plus one; rows are never deleted or updated). `payment_id` is
 * UNIQUE, which `DistinctIds` states.
 */
module Ledger {
  import opened Clock
  import opened Wrappers

  /** One row of `pix`: payment_id, valor, status, data ("%Y-%m-%d"), hora. */
  datatype PixRow = PixRow(paymentId: string, valor: real, status: string, data: string, hora: SecondOfDay)

  /** One item of the list `listar_pix_por_dia` returns (payment_id, valor, hora). */
  datatype PixEntry = PixEntry(paymentId: string, valor: real, hora: SecondOfDay)

  /** What `resumo_do_dia` returns: IFNULL(SUM(valor), 0) and COUNT(*). */
  datatype Summary = Summary(total: real, quantidade: nat)

  /** One row of `fechamento_diario` besides its key `data`. */
  datatype Closing = Closing(total: real, quantidade: nat, fechadoEm: DateTime)

  /** What `buscar_fechamento` returns for a stored closing. */
  datatype Report = Report(data: string, total: real, quantidade: nat, fechadoEm: DateTime, pix: seq<PixEntry>)

  function Ids(rows: seq<PixRow>): set<string>
  {
    set r | r in rows :: r.paymentId
  }

  /** The UNIQUE constraint on `payment_id`. */
  ghost predicate DistinctIds(rows: seq<PixRow>)
  {
    forall i, j :: 0 <= i < j < |rows| ==> rows[i].paymentId != rows[j].paymentId
  }

  /** INSERT OR IGNORE: a row whose payment_id is already present is dropped. */
  function InsertOrIgnore(rows: seq<PixRow>, row: PixRow): (r: seq<PixRow>)
    ensures DistinctIds(rows) ==> DistinctIds(r)
    ensures Ids(r) == Ids(rows) + {row.paymentId}
    ensures |r| == if row.paymentId in Ids(rows) then |rows| else |rows| + 1
    ensures r[..|rows|] == rows
    ensures row.paymentId !in Ids(rows) ==> r[|rows|] == row
  {
    if row.paymentId in Ids(rows) then rows else rows + [row]
  }

  /** Delivering the same row again changes nothing. */
  lemma InsertOrIgnoreIdempotent(rows: seq<PixRow>, row: PixRow)
    ensures InsertOrIgnore(InsertOrIgnore(rows, row), row) == InsertOrIgnore(rows, row)
  {
  }

  /** The rows `WHERE data = d`, in rowid order. */
  function RowsOn(rows: seq<PixRow>, d: string): (r: seq<PixRow>)
    ensures forall x :: x in r <==> x in rows && x.data == d
    ensures |r| <= |rows|
  {
    if rows == [] then []
    else (if rows[0].data == d then [rows[0]] else []) + RowsOn(rows[1..], d)
  }

  /** Each row of date d is selected as many times as the table holds it, any other row never. */
  lemma {:induction false} RowsOnMultiplicity(rows: seq<PixRow>, d: string, x: PixRow)
    ensures multiset(RowsOn(rows, d))[x] == if x.data == d then multiset(rows)[x] else 0
  {
    if rows != [] {
      RowsOnMultiplicity(rows[1..], d, x);
      assert rows == [rows[0]] + rows[1..];
    }
  }

  function Total(rows: seq<PixRow>): real
  {
    if rows == [] then 0.0 else rows[0].valor + Total(rows[1..])
  }

  /** `resumo_do_dia`: the sum of valor and the count of the rows of date d. */
  function Resumo(rows: seq<PixRow>, d: string): (r: Summary)
    ensures r.quantidade <= |rows|
    ensures r.quantidade == 0 <==> forall row :: row in rows ==> row.data != d
    ensures r.quantidade == 0 ==> r.total == 0.0
  {
    var day := RowsOn(rows, d);
    Summary(Total(day), |day|)
  }

  lemma {:induction false} RowsOnAppend(rows: seq<PixRow>, row: PixRow, d: string)
    ensures RowsOn(rows + [row], d) == RowsOn(rows, d) + (if row.data == d then [row] else [])
  {
    if rows == [] {
      assert rows + [row] == [row];
    } else {
      assert (rows + [row])[1..] == rows[1..] + [row];
      RowsOnAppend(rows[1..], row, d);
    }
  }

  lemma {:induction false} TotalAppend(a: seq<PixRow>, b: seq<PixRow>)
    ensures Total(a + b) == Total(a) + Total(b)
  {
    if a == [] {
      assert a + b == b;
    } else {
      assert (a + b)[1..] == a[1..] + b;
      TotalAppend(a[1..], b);
    }
  }

  /** A new row adds its valor and one to the summary of its own date, and nothing to any other date. */
  lemma ResumoAfterInsert(rows: seq<PixRow>, row: PixRow, d: string)
    ensures Resumo(rows + [row], d) ==
      if row.data == d then Summary(Resumo(rows, d).total + row.valor, Resumo(rows, d).quantidade + 1)
      else Resumo(rows, d)
  {
    RowsOnAppend(rows, row, d);
    if row.data == d {
      TotalAppend(RowsOn(rows, d), [row]);
      assert Total([row]) == row.valor + Total([]);
    } else {
      assert RowsOn(rows, d) + [] == RowsOn(rows, d);
    }
  }

  /**
   * Redelivering a payment_id that is already stored leaves the summary of
   * every date unchanged; a new one changes only the summary of its own date.
   */
  lemma ResumoAfterInsertOrIgnore(rows: seq<PixRow>, row: PixRow, d: string)
    ensures row.paymentId in Ids(rows) ==> Resumo(InsertOrIgnore(rows, row), d) == Resumo(rows, d)
    ensures row.paymentId !in Ids(rows) && row.data != d ==> Resumo(InsertOrIgnore(rows, row), d) == Resumo(rows, d)
    ensures row.paymentId !in Ids(rows) && row.data == d ==>
      Resumo(InsertOrIgnore(rows, row), d) == Summary(Resumo(rows, d).total + row.valor, Resumo(rows, d).quantidade + 1)
  {
    if row.paymentId !in Ids(rows) {
      ResumoAfterInsert(rows, row, d);
    }
  }

  /** The payment ids stored for date d. */
  function IdsOn(rows: seq<PixRow>, d: string): set<string>
  {
    set r | r in rows && r.data == d :: r.paymentId
  }

  /** Under the UNIQUE constraint every payment of a date is counted exactly once. */
  lemma {:induction false} ResumoCountsPaymentsOnce(rows: seq<PixRow>, d: string)
    requires DistinctIds(rows)
    ensures Resumo(rows, d).quantidade == |IdsOn(rows, d)|
  {
    if rows != [] {
      var rest := rows[1..];
      assert DistinctIds(rest) by {
        forall i, j | 0 <= i < j < |rest| ensures rest[i].paymentId != rest[j].paymentId {
          assert rest[i] == rows[i + 1] && rest[j] == rows[j + 1];
        }
      }
      ResumoCountsPaymentsOnce(rest, d);
      assert rows == [rows[0]] + rest;
      if rows[0].data == d {
        assert IdsOn(rows, d) == IdsOn(rest, d) + {rows[0].paymentId};
        assert rows[0].paymentId !in IdsOn(rest, d);
      } else {
        assert IdsOn(rows, d) == IdsOn(rest, d);
      }
    }
  }

  function EntryOf(r: PixRow): PixEntry
  {
    PixEntry(r.paymentId, r.valor, r.hora)
  }

  function Entries(rows: seq<PixRow>): (es: seq<PixEntry>)
    ensures |es| == |rows|
    ensures forall i :: 0 <= i < |rows| ==> es[i] == EntryOf(rows[i])
  {
    if rows == [] then [] else [EntryOf(rows[0])] + Entries(rows[1..])
  }

  function TotalOf(es: seq<PixEntry>): real
  {
    if es == [] then 0.0 else es[0].valor + TotalOf(es[1..])
  }

  ghost predicate SortedByHora(es: seq<PixEntry>)
  {
    forall i, j :: 0 <= i < j < |es| ==> es[i].hora <= es[j].hora
  }

  /** Place e before the first entry that is not earlier than it. */
  function InsertByHora(e: PixEntry, es: seq<PixEntry>): (r: seq<PixEntry>)
    ensures multiset(r) == multiset(es) + multiset{e}
  {
    if es == [] then [e]
    else if e.hora <= es[0].hora then [e] + es
    else
      assert es == [es[0]] + es[1..];
      [es[0]] + InsertByHora(e, es[1..])
  }

  lemma {:induction false} InsertByHoraSorted(e: PixEntry, es: seq<PixEntry>)
    requires SortedByHora(es)
    ensures SortedByHora(InsertByHora(e, es))
  {
    if es != [] && e.hora > es[0].hora {
      var tail := InsertByHora(e, es[1..]);
      InsertByHoraSorted(e, es[1..]);
      forall k | 0 <= k < |tail| ensures es[0].hora <= tail[k].hora {
        assert tail[k] in multiset(tail);
        if tail[k] != e {
          assert tail[k] in multiset(es[1..]);
          var m :| 0 <= m < |es[1..]| && es[1..][m] == tail[k];
          assert es[m + 1] == tail[k];
        }
      }
      var r := InsertByHora(e, es);
      assert r == [es[0]] + tail;
      forall i, j | 0 <= i < j < |r| ensures r[i].hora <= r[j].hora {
        if i > 0 {
          assert r[i] == tail[i - 1] && r[j] == tail[j - 1];
        } else {
          assert r[j] == tail[j - 1];
        }
      }
    }
  }

  lemma {:induction false} InsertByHoraTotal(e: PixEntry, es: seq<PixEntry>)
    ensures TotalOf(InsertByHora(e, es)) == e.valor + TotalOf(es)
  {
    if es != [] && e.hora > es[0].hora {
      InsertByHoraTotal(e, es[1..]);
      assert InsertByHora(e, es)[1..] == InsertByHora(e, es[1..]);
    }
  }

  /** ORDER BY hora; rows with the same hora keep their rowid order. */
  function SortByHora(es: seq<PixEntry>): (r: seq<PixEntry>)
    ensures SortedByHora(r)
    ensures multiset(r) == multiset(es)
    ensures TotalOf(r) == TotalOf(es)
  {
    if es == [] then []
    else
      assert es == [es[0]] + es[1..];
      var rest := SortByHora(es[1..]);
      InsertByHoraSorted(es[0], rest);
      InsertByHoraTotal(es[0], rest);
      InsertByHora(es[0], rest)
  }

  /**
   * `listar_pix_por_dia`: exactly the rows of date d, as entries, ordered by
   * hora.
   */
  function Listar(rows: seq<PixRow>, d: string): (r: seq<PixEntry>)
    ensures SortedByHora(r)
    ensures multiset(r) == multiset(Entries(RowsOn(rows, d)))
  {
    SortByHora(Entries(RowsOn(rows, d)))
  }

  /** An entry is listed for d exactly when some row of date d carries it. */
  lemma ListarMembership(rows: seq<PixRow>, d: string)
    ensures forall e :: e in Listar(rows, d) <==> exists r :: r in rows && r.data == d && EntryOf(r) == e
  {
    var day := RowsOn(rows, d);
    var es := Entries(day);
    forall e ensures e in Listar(rows, d) <==> exists r :: r in rows && r.data == d && EntryOf(r) == e {
      assert e in Listar(rows, d) <==> e in multiset(es);
      if e in es {
        var i :| 0 <= i < |es| && es[i] == e;
        assert day[i] in day;
      }
      if exists r :: r in rows && r.data == d && EntryOf(r) == e {
        var r :| r in rows && r.data == d && EntryOf(r) == e;
        var i :| 0 <= i < |day| && day[i] == r;
        assert es[i] == e;
      }
    }
  }

  lemma {:induction false} TotalOfEntries(rows: seq<PixRow>)
    ensures TotalOf(Entries(rows)) == Total(rows)
  {
    if rows != [] {
      TotalOfEntries(rows[1..]);
    }
  }

  /**
   * The daily summary agrees with the daily listing: its total is the sum of
   * the listed valor and its count the length of the list.
   */
  lemma ResumoMatchesListar(rows: seq<PixRow>, d: string)
    ensures Resumo(rows, d) == Summary(TotalOf(Listar(rows, d)), |Listar(rows, d)|)
  {
    var es := Entries(RowsOn(rows, d));
    TotalOfEntries(RowsOn(rows, d));
    assert |Listar(rows, d)| == |multiset(Listar(rows, d))| == |multiset(es)| == |es|;
  }

  /** The `fechamento_diario` row that `fechar_dia(d)` writes at time `at`. */
  function Snapshot(rows: seq<PixRow>, d: string, at: DateTime): (c: Closing)
    ensures c.total == TotalOf(Listar(rows, d)) && c.quantidade == |Listar(rows, d)|
    ensures c.fechadoEm == at
  {
    ResumoMatchesListar(rows, d);
    var s := Resumo(rows, d);
    Closing(s.total, s.quantidade, at)
  }

  /** `buscar_fechamento(d)`: the stored closing of d with the current list of that day. */
  function Buscar(closings: map<string, Closing>, rows: seq<PixRow>, d: string): (r: Option<Report>)
    ensures r.None? <==> d !in closings
  {
    if d in closings then
      var c := closings[d];
      Some(Report(d, c.total, c.quantidade, c.fechadoEm, Listar(rows, d)))
    else None
  }

  /** Right after closing d, its report agrees with its own list of payments. */
  lemma ReportAfterClose(closings: map<string, Closing>, rows: seq<PixRow>, d: string, at: DateTime)
    ensures var r := Buscar(closings[d := Snapshot(rows, d, at)], rows, d);
      && r.Some? && r.value.data == d && r.value.fechadoEm == at
      && r.value.total == TotalOf(r.value.pix) && r.value.quantidade == |r.value.pix|
  {
  }

  /**
   * A payment recorded for d after d was closed is listed in the report of d
   * but is not in its stored total and count: the snapshot does not follow
   * later payments until d is closed again.
   */
  lemma ReportAfterLatePayment(closings: map<string, Closing>, rows: seq<PixRow>, d: string, at: DateTime, row: PixRow)
    requires row.data == d && row.paymentId !in Ids(rows)
    ensures var r := Buscar(closings[d := Snapshot(rows, d, at)], InsertOrIgnore(rows, row), d);
      && r.Some? && EntryOf(row) in r.value.pix
      && r.value.total + row.valor == TotalOf(r.value.pix) && r.value.quantidade + 1 == |r.value.pix|
  {
    var later := InsertOrIgnore(rows, row);
    ResumoAfterInsert(rows, row, d);
    ResumoMatchesListar(later, d);
    ListarMembership(later, d);
    assert row in later;
  }

  /**
   * Closing d twice keeps only the second record; with no payment in between
   * its total and count are those of the first, and only fechado_em differs.
   */
  lemma CloseTwice(closings: map<string, Closing>, rows: seq<PixRow>, d: string, at1: DateTime, at2: DateTime)
    ensures var twice := closings[d := Snapshot(rows, d, at1)][d := Snapshot(rows, d, at2)];
      && twice == closings[d := Snapshot(rows, d, at2)]
      && twice[d] == Snapshot(rows, d, at1).(fechadoEm := at2)
  {
  }

  /** Closing d again after a new payment of d supersedes the first snapshot with one that includes it. */
  lemma CloseAgainAfterPayment(rows: seq<PixRow>, row: PixRow, d: string, at1: DateTime, at2: DateTime)
    requires row.data == d && row.paymentId !in Ids(rows)
    ensures Snapshot(InsertOrIgnore(rows, row), d, at2).total == Snapshot(rows, d, at1).total + row.valor
    ensures Snapshot(InsertOrIgnore(rows, row), d, at2).quantidade == Snapshot(rows, d, at1).quantidade + 1
  {
    ResumoAfterInsert(rows, row, d);
  }
}
