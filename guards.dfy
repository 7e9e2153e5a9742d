/**
 * The access decorators of app.py over the Flask session, which is a
 * dictionary of named values. A decorated view either runs its handler or is
 * turned away before it.
 */
module Guards {

  /** The values the application stores in the session. */
  datatype SessionValue = IntValue(i: int) | TextValue(s: string)

  type Session = map<string, SessionValue>

  /** What a request to a decorated view produces. */
  datatype Outcome = Handler | RedirectLogin | Forbidden

  /** `login_required`: redirect to /login unless the session has "user_id". */
  function LoginRequired(session: Session, handler: Outcome): (r: Outcome)
    ensures "user_id" !in session ==> r == RedirectLogin
    ensures "user_id" in session ==> r == handler
  {
    if "user_id" !in session then RedirectLogin else handler
  }

  /** `role_required(role)`: 403 unless `session.get("tipo") == role`. */
  function RoleRequired(session: Session, role: string, handler: Outcome): (r: Outcome)
    ensures r == handler || r == Forbidden
    ensures r == handler <==> handler == Forbidden || ("tipo" in session && session["tipo"] == TextValue(role))
  {
    if "tipo" !in session || session["tipo"] != TextValue(role) then Forbidden else handler
  }

  /** `empresa_required`: 403 unless the session has "empresa_id". */
  function EmpresaRequired(session: Session, handler: Outcome): (r: Outcome)
    ensures r == handler || r == Forbidden
    ensures r == handler <==> handler == Forbidden || "empresa_id" in session
  {
    if "empresa_id" !in session then Forbidden else handler
  }

  /**
   * A view decorated `@login_required @role_required(role) @empresa_required`,
   * as every manager and cashier page is: the handler runs only for a logged-in
   * session of that role with a company; a session without a user is sent to
   * the login page before anything else is checked.
   */
  function Guarded(session: Session, role: string): (r: Outcome)
    ensures r == Handler <==>
      "user_id" in session && "tipo" in session && session["tipo"] == TextValue(role) && "empresa_id" in session
    ensures r == RedirectLogin <==> "user_id" !in session
    ensures r == Forbidden <==>
      "user_id" in session && ("tipo" !in session || session["tipo"] != TextValue(role) || "empresa_id" !in session)
  {
    LoginRequired(session, RoleRequired(session, role, EmpresaRequired(session, Handler)))
  }

  /** No session reaches both the manager pages and the cashier page. */
  lemma RolesExclusive(session: Session)
    ensures !(Guarded(session, "gerente") == Handler && Guarded(session, "caixa") == Handler)
  {
  }
}
