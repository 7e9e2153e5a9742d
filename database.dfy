/**
 * The persistence layer of database.py: the three SQLite tables as fields of
 * one object, the statements that change them as methods, and the read-only
 * queries as functions of those fields. Every "now" that database.py reads from
 * `datetime.now()` is a parameter.
 */
module Database {
  import opened Clock
  import opened Wrappers
  import opened Ledger
  import opened Users

  /** `if not data: data = datetime.now().strftime("%Y-%m-%d")`: an empty date means today. */
  function DayOrToday(data: string, now: DateTime): (d: string)
    ensures d != "" || now.date == ""
    ensures data != "" ==> d == data
    ensures data == "" ==> d == now.date
  {
    if data == "" then now.date else data
  }

  /** The outcome of `criar_usuario`: the new row's id, or the IntegrityError of a taken username. */
  datatype CreateResult = Created(id: nat) | UsernameTaken

  class Database {
    /** `pix`, in rowid order. */
    var pix: seq<PixRow>
    /** `fechamento_diario`, keyed by its PRIMARY KEY `data`. */
    var fechamentos: map<string, Closing>
    /** `usuarios`, in id order. */
    var usuarios: seq<UserRow>

    /** The tables' constraints: UNIQUE payment_id, AUTOINCREMENT ids and UNIQUE username. */
    ghost predicate Valid()
      reads this
    {
      DistinctIds(pix) && WellFormed(usuarios)
    }

    /** A database file whose tables `init_db` has just created. */
    constructor ()
      ensures Valid()
      ensures pix == [] && fechamentos == map[] && usuarios == []
    {
      pix := [];
      fechamentos := map[];
      usuarios := [];
    }

    /** `init_db`: seed the default manager account when `usuarios` is empty. */
    method InitDb(now: DateTime, gerenteHash: string)
      requires Valid()
      modifies this`usuarios
      ensures Valid()
      ensures old(usuarios) == [] ==> usuarios == [UserRow(1, "gerente", gerenteHash, "gerente", 1, now)]
      ensures old(usuarios) != [] ==> usuarios == old(usuarios)
    {
      if |usuarios| == 0 {
        usuarios := [UserRow(1, "gerente", gerenteHash, "gerente", 1, now)];
      }
    }

    /**
     * `autenticar_usuario`: (id, tipo) of the active user with this username
     * whose stored hash accepts the password; `checkHash` stands for
     * werkzeug's `check_password_hash`.
     */
    function AutenticarUsuario(username: string, senha: string, checkHash: (string, string) -> bool): (r: Option<(nat, string)>)
      reads this
      requires Valid()
      ensures r.Some? <==>
        exists u :: u in usuarios && u.username == username && u.ativo == 1 && checkHash(u.senha, senha)
      ensures r.Some? ==>
        exists u :: u in usuarios && u.username == username && u.ativo == 1 && r.value == (u.id, u.tipo)
    {
      FindActiveUnique(usuarios, username);
      match FindActive(usuarios, username)
      case None => None
      case Some(u) => if checkHash(u.senha, senha) then Some((u.id, u.tipo)) else None
    }

    /** `criar_usuario`: insert an active user; a taken username raises instead. */
    method CriarUsuario(username: string, senhaHash: string, now: DateTime, tipo: string := "caixa")
      returns (r: CreateResult)
      requires Valid()
      modifies this`usuarios
      ensures Valid()
      ensures username in old(Usernames(usuarios)) ==> r == UsernameTaken && usuarios == old(usuarios)
      ensures username !in old(Usernames(usuarios)) ==>
        && r == Created(|old(usuarios)| + 1)
        && usuarios == old(usuarios) + [UserRow(|old(usuarios)| + 1, username, senhaHash, tipo, 1, now)]
    {
      if username in Usernames(usuarios) {
        r := UsernameTaken;
      } else {
        var id := |usuarios| + 1;
        usuarios := usuarios + [UserRow(id, username, senhaHash, tipo, 1, now)];
        r := Created(id);
      }
    }

    /** `alterar_status_usuario`: set ativo of the user with this id, if there is one. */
    method AlterarStatusUsuario(userId: int, ativo: int)
      requires Valid()
      modifies this`usuarios
      ensures Valid()
      ensures usuarios == SetAtivo(old(usuarios), userId, ativo)
      ensures Usernames(usuarios) == Usernames(old(usuarios))
    {
      SetAtivoWellFormed(usuarios, userId, ativo);
      usuarios := SetAtivo(usuarios, userId, ativo);
    }

    /**
     * `salvar_pix`: INSERT OR IGNORE a row stamped with the date and time of
     * `now`; a payment_id already stored is silently ignored.
     */
    method SalvarPix(paymentId: string, valor: real, status: string, now: DateTime)
      requires Valid()
      modifies this`pix
      ensures Valid()
      ensures pix == InsertOrIgnore(old(pix), PixRow(paymentId, valor, status, now.date, now.time))
      ensures paymentId in old(Ids(pix)) ==> pix == old(pix)
      ensures paymentId !in old(Ids(pix)) ==> pix == old(pix) + [PixRow(paymentId, valor, status, now.date, now.time)]
    {
      pix := InsertOrIgnore(pix, PixRow(paymentId, valor, status, now.date, now.time));
    }

    /** `listar_pix_por_dia`: the entries of the rows of date d, ordered by hora. */
    function ListarPixPorDia(data: string): (r: seq<PixEntry>)
      reads this`pix
      ensures SortedByHora(r)
      ensures forall e :: e in r <==> exists row :: row in pix && row.data == data && EntryOf(row) == e
      ensures |r| == |RowsOn(pix, data)|
      ensures multiset(r) == multiset(Entries(RowsOn(pix, data)))
    {
      ListarMembership(pix, data);
      ResumoMatchesListar(pix, data);
      Listar(pix, data)
    }

    /**
     * `resumo_do_dia`: total and count of the rows of the given date (today
     * when the date is empty), in agreement with that day's list.
     */
    function ResumoDoDia(data: string, now: DateTime): (r: Summary)
      reads this`pix
      ensures var day := ListarPixPorDia(DayOrToday(data, now));
        r.total == TotalOf(day) && r.quantidade == |day|
      ensures r.quantidade == 0 <==> forall row :: row in pix ==> row.data != DayOrToday(data, now)
      ensures r.quantidade == 0 ==> r.total == 0.0
    {
      var d := DayOrToday(data, now);
      ResumoMatchesListar(pix, d);
      Resumo(pix, d)
    }

    /**
     * `fechar_dia`: INSERT OR REPLACE the record of the date (today when
     * empty) with that date's summary at this moment, stamped `now`.
     */
    method FecharDia(data: string, now: DateTime)
      requires Valid()
      modifies this`fechamentos
      ensures Valid()
      ensures var d := DayOrToday(data, now);
        && fechamentos == old(fechamentos)[d := Snapshot(pix, d, now)]
        && fechamentos[d].total == ResumoDoDia(data, now).total
        && fechamentos[d].quantidade == ResumoDoDia(data, now).quantidade
    {
      var d := DayOrToday(data, now);
      fechamentos := fechamentos[d := Snapshot(pix, d, now)];
    }

    /** `buscar_fechamento`: the stored record of d with d's current list, or None; it writes nothing. */
    function BuscarFechamento(data: string): (r: Option<Report>)
      reads this`pix, this`fechamentos
      ensures r.None? <==> data !in fechamentos
      ensures r.Some? ==>
        && r.value.data == data
        && r.value.total == fechamentos[data].total
        && r.value.quantidade == fechamentos[data].quantidade
        && r.value.fechadoEm == fechamentos[data].fechadoEm
        && r.value.pix == ListarPixPorDia(data)
    {
      Buscar(fechamentos, pix, data)
    }
  }

  /** Two rows of date d for 10.50 and 5.00 sum to 15.50 over two rows. */
  lemma TwoPaymentsOneDay(first: PixRow, second: PixRow, d: string)
    requires first.data == d && second.data == d && first.valor == 10.5 && second.valor == 5.0
    ensures Resumo([first] + [second], d) == Summary(15.5, 2)
    ensures |RowsOn([first] + [second], d)| == 2
  {
    ResumoAfterInsert([], first, d);
    assert [] + [first] == [first];
    ResumoAfterInsert([first], second, d);
  }

  /**
   * The delivery sequence of a day: "abc123" for 10.50, the same again, then
   * "xyz999" for 5.00, then the closing. The redelivery is ignored, and the
   * closing holds 15.50 over two payments.
   */
  method DailyScenario(morning: DateTime, later: DateTime, closeAt: DateTime) returns (c: Option<Report>)
    requires morning.date == later.date == closeAt.date != ""
    ensures c.Some? && c.value.total == 15.5 && c.value.quantidade == 2
    ensures |c.value.pix| == 2
  {
    var d := closeAt.date;
    var first := PixRow("abc123", 10.5, "CONFIRMADO", d, morning.time);
    var second := PixRow("xyz999", 5.0, "CONFIRMADO", d, later.time);
    var db := new Database();
    db.SalvarPix("abc123", 10.5, "CONFIRMADO", morning);
    assert db.pix == [] + [first];
    db.SalvarPix("abc123", 10.5, "CONFIRMADO", later);
    assert db.pix == [first];
    db.SalvarPix("xyz999", 5.0, "CONFIRMADO", later);
    assert db.pix == [first] + [second];
    TwoPaymentsOneDay(first, second, d);
    db.FecharDia("", closeAt);
    assert db.fechamentos[d].total == 15.5 && db.fechamentos[d].quantidade == 2;
    c := db.BuscarFechamento(d);
  }
}
