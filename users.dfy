/**
 * The `usuarios` table of database.py as a value. Rows are in id order: the
 * AUTOINCREMENT id is the position plus one, since rows are never deleted.
 * `senha` holds the stored password hash; hashing itself is foreign code and is
 * not part of this model.
 */
module Users {
  import opened Clock
  import opened Wrappers

  /** One row: id, username (UNIQUE), senha (hash), tipo, ativo, criado_em. */
  datatype UserRow = UserRow(id: nat, username: string, senha: string, tipo: string, ativo: int, criadoEm: DateTime)

  /** Ids follow AUTOINCREMENT from 1, and usernames are UNIQUE. */
  ghost predicate WellFormed(users: seq<UserRow>)
  {
    && (forall i :: 0 <= i < |users| ==> users[i].id == i + 1)
    && (forall i, j :: 0 <= i < j < |users| ==> users[i].username != users[j].username)
  }

  function Usernames(users: seq<UserRow>): set<string>
  {
    set u | u in users :: u.username
  }

  /** `SELECT ... WHERE username = ? AND ativo = 1`, first row in id order. */
  function FindActive(users: seq<UserRow>, username: string): (r: Option<UserRow>)
    ensures r.Some? ==> r.value in users && r.value.username == username && r.value.ativo == 1
    ensures r.None? ==> forall u :: u in users && u.username == username ==> u.ativo != 1
  {
    if users == [] then None
    else if users[0].username == username && users[0].ativo == 1 then Some(users[0])
    else
      assert forall u :: u in users ==> u == users[0] || u in users[1..];
      FindActive(users[1..], username)
  }

  /** Under UNIQUE usernames, any active row with the username is the row found. */
  lemma FindActiveUnique(users: seq<UserRow>, username: string)
    requires WellFormed(users)
    ensures forall u :: u in users && u.username == username && u.ativo == 1 ==> FindActive(users, username) == Some(u)
  {
  }

  /** `UPDATE usuarios SET ativo = ? WHERE id = ?`. */
  function SetAtivo(users: seq<UserRow>, id: int, ativo: int): (r: seq<UserRow>)
    ensures |r| == |users|
    ensures forall i :: 0 <= i < |users| ==>
      r[i] == if users[i].id == id then users[i].(ativo := ativo) else users[i]
  {
    if users == [] then []
    else [if users[0].id == id then users[0].(ativo := ativo) else users[0]] + SetAtivo(users[1..], id, ativo)
  }

  /** The UPDATE keeps ids and usernames, so the table stays well formed. */
  lemma SetAtivoWellFormed(users: seq<UserRow>, id: int, ativo: int)
    requires WellFormed(users)
    ensures WellFormed(SetAtivo(users, id, ativo))
    ensures Usernames(SetAtivo(users, id, ativo)) == Usernames(users)
  {
  }

  /** After setting ativo to anything but 1, that user can no longer be found for login. */
  lemma DeactivatedNotFound(users: seq<UserRow>, id: int, ativo: int)
    requires WellFormed(users)
    requires 1 <= id <= |users| && ativo != 1
    ensures FindActive(SetAtivo(users, id, ativo), users[id - 1].username).None?
  {
  }

  /** Setting ativo back to 1 makes that user the one found for its username. */
  lemma ReactivatedFound(users: seq<UserRow>, id: int)
    requires WellFormed(users)
    requires 1 <= id <= |users|
    ensures FindActive(SetAtivo(users, id, 1), users[id - 1].username) == Some(users[id - 1].(ativo := 1))
  {
  }
}
