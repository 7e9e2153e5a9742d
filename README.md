# Pix-Control payment ledger, modelled in Dafny

Pix-Control is a point-of-sale dashboard. It receives Pix payment webhooks and
stores each payment once under its `payment_id`. It sums the payments of a day
and writes a closing snapshot of each day. This project models the code that
holds those rules:

- **database.py.** The three SQLite tables become the fields of one
  `Database.Database` object: `pix` is the rows in rowid order, `fechamentos`
  is `fechamento_diario` keyed by date, and `usuarios` is the user rows in id
  order. The statements that change a table (`salvar_pix`, `fechar_dia`,
  `criar_usuario`, `alterar_status_usuario`, `init_db`) are methods. The
  read-only queries (`resumo_do_dia`, `listar_pix_por_dia`,
  `buscar_fechamento`, `autenticar_usuario`) are functions of those fields.
  The pure modules `Ledger` and `Users` specify the tables as values, and
  their lemmas prove the cross-operation properties: dedup, agreement
  between the summary and the list, closing idempotence and supersession,
  and deactivation.
- **app.py.** Four pieces are modelled:
  - the two sliding-window rate limiters (module `RateLimit`, a class over the
    per-IP dictionary);
  - the webhook gate (module `Webhook`): rate limit, then `X-Signature`
    check, then field defaults, then `salvar_pix`;
  - one iteration of the `fechamento_auto` loop, plus a bounded run of it
    (module `Scheduler`);
  - the three access decorators (module `Guards`).

Every `datetime.now()` and `time.time()` reading is a parameter. Foreign code
is also passed in as parameters: HMAC-SHA256 becomes a function `mac` whose
result is always 64 lower-case hexadecimal characters, Flask's JSON parsing of
the request body becomes a function `decode` applied to the very bytes the
signature covers,
`check_password_hash` becomes a function `checkHash`, and a password hash
computed elsewhere becomes a string. Amounts (`valor`) are exact `real`
values. The time of day is whole seconds since midnight;
`Clock.HoraTextOrder` proves that ordering the stored "%H:%M:%S" text (SQLite
BINARY collation) matches ordering by time, so `ORDER BY hora` is modelled as
a sort by time. SQLite leaves the order of rows with the same `hora`
unspecified; the model's insertion sort happens to keep them in rowid order,
and no contract relies on that.

The model follows the code where the code differs from the multi-tenant
design it was written toward:

- The code is single-tenant. `app.py` passes a tenant argument that the
  `database.py` functions do not accept: `salvar_pix(..., 1)` at
  app.py:266-271, `resumo_do_dia(hoje, empresa_id)` at app.py:204,
  `buscar_fechamento(data, empresa_id)` at app.py:283 and
  `fechar_dia(..., 1)` at app.py:308, `listar_usuarios(session["empresa_id"])`
  at app.py:214 (the function takes no argument) and
  `criar_usuario(..., "caixa", session["empresa_id"])` at app.py:225-230 (the
  function takes three). As written, each of these calls raises TypeError. The
  model calls the three-argument `salvar_pix` and `criar_usuario` and the
  one-argument `fechar_dia`, and has no tenant column.
- `login` reads `user[2]` (app.py:184), but `autenticar_usuario` returns a
  pair (database.py:93).
- Amounts and payment ids are not validated. A negative or zero `amount` is
  stored as given. A body without `paymentId` is stored under the id "N/A",
  so after the first such payment every later one is silently ignored (see
  `Webhook.MissingIdsShareOneRow`).

## Model

| member | source | states |
|---|---|---|
| `Clock.HoraTextOrder` | database.py:212-217 | Ordering the "%H:%M:%S" text of two times of day lexicographically gives the same order as comparing the times; equal texts mean equal times |
| `Ledger.InsertOrIgnore` | database.py:149-159 | INSERT OR IGNORE keeps the UNIQUE payment_id constraint, adds the id to the id set, keeps every existing row in place, and grows the table by one row (the given row) exactly when the id was new |
| `Ledger.InsertOrIgnoreIdempotent` | database.py:149-159 | Delivering the same row twice leaves the table as one delivery does |
| `Clock.HoraText` | database.py:158 | The "%H:%M:%S" text has 8 characters, ':' at positions 2 and 5, digits elsewhere, and its three fields read back as the hour, minute and second of the time |
| `Ledger.RowsOn` | database.py:172-176 | The rows selected for a date are exactly the rows whose `data` is that date, never more than the table holds |
| `Ledger.RowsOnMultiplicity` | database.py:172-176 | Each row of the date is selected as many times as the table holds it, and a row of another date never |
| `Ledger.ResumoAfterInsertOrIgnore` | database.py:149-176 | Redelivering a stored payment_id leaves the summary of every date unchanged; a new payment adds its valor and 1 to the summary of its own date and leaves every other date unchanged |
| `Ledger.Resumo` | database.py:172-176 | The count never exceeds the table size; it is 0 exactly when no row has the date, and then the total is 0 (IFNULL(SUM, 0)) |
| `Ledger.ResumoCountsPaymentsOnce` | database.py:172-176 | Under the UNIQUE constraint, the count of a day equals the number of distinct payment ids stored for that day |
| `Ledger.SortByHora` | database.py:212-217 | The result is sorted by hora, is a permutation of its input, and has the same sum of valor |
| `Ledger.Listar` | database.py:208-225 | The list of a day is sorted by hora and holds, with multiplicity, exactly the (payment_id, valor, hora) of the rows of that day |
| `Ledger.ListarMembership` | database.py:212-217 | An entry is in the list of day d exactly when some row of date d carries it |
| `Ledger.ResumoMatchesListar` | database.py:172-217 | The summary of a day equals the sum of valor over that day's list and the length of that list |
| `Ledger.Snapshot` | database.py:190-201 | The closing record of a day carries the total and count of that day's list at that moment, and the closing time |
| `Ledger.Buscar` | database.py:228-249 | The lookup returns None exactly when no closing record exists for the date |
| `Ledger.ReportAfterClose` | database.py:232-249 | Right after a day is closed, its report exists, has the closing time, and its total and count agree with its own payment list |
| `Ledger.ReportAfterLatePayment` | database.py:244-249 | A new payment for a closed day appears in that day's report list but not in the stored total and count, which then differ from the list by exactly that payment |
| `Ledger.CloseTwice` | database.py:194-201 | Closing a day twice with no payment in between keeps one record per date, with the first snapshot's total and count; only fechado_em changes |
| `Ledger.CloseAgainAfterPayment` | database.py:190-201 | Closing again after a new payment of the day supersedes the first snapshot with one that includes that payment's amount and count |
| `Users.FindActive` | database.py:80-86 | A user found has the username and ativo = 1 and is a row of the table; when none is found, every row with that username is inactive |
| `Users.FindActiveUnique` | database.py:80-86 | Under UNIQUE usernames, any active row with the username is the one the query returns |
| `Users.SetAtivo` | database.py:135 | The UPDATE changes ativo of exactly the row with the given id and leaves all other rows and the table length unchanged |
| `Users.SetAtivoWellFormed` | database.py:132-137 | The UPDATE keeps the ids consecutive from 1 and the usernames unique and unchanged |
| `Users.DeactivatedNotFound` | database.py:80-90 | After a user's ativo is set to anything but 1, the login query finds nobody for that username |
| `Users.ReactivatedFound` | database.py:132-137 | After a user's ativo is set back to 1, the login query finds that user for its username |
| `Database.DayOrToday` | database.py:166-167 | A date that is given is used as is; an empty one is replaced by the date of `now` |
| `Database.Database.constructor` | database.py:23-54 | A freshly initialised database has three empty tables that satisfy their constraints |
| `Database.Database.InitDb` | database.py:56-67 | When `usuarios` is empty, it seeds exactly the active "gerente" account with id 1 and the given hash; otherwise it changes nothing; the other tables are untouched |
| `Database.Database.AutenticarUsuario` | database.py:76-95 | Returns a result exactly when an active user with the username exists whose stored hash accepts the password, and the result is that user's (id, tipo) |
| `Database.Database.CriarUsuario` | database.py:114-129 | A taken username is refused with the table unchanged; otherwise exactly one active row is appended, with the next id, the given tipo (default "caixa") and the creation time |
| `Database.Database.AlterarStatusUsuario` | database.py:132-137 | The table becomes the UPDATE of ativo for the given id; usernames and the table constraints are kept |
| `Database.Database.SalvarPix` | database.py:143-162 | A new payment_id appends exactly one row with that id, valor, status and the date and time of `now`; an id already stored leaves the table unchanged without error; the other tables are untouched |
| `Database.Database.ListarPixPorDia` | database.py:208-225 | The list is sorted by hora, holds an entry exactly when some row of that date carries it, and holds, with multiplicity, one entry per row of that date |
| `Database.Database.ResumoDoDia` | database.py:165-180 | The total and count equal the sum of valor over the day's list and its length (today when the date is empty); the count is 0 exactly when the day has no row, and then the total is 0 |
| `Database.Database.FecharDia` | database.py:186-205 | The record of the date (today when empty) is replaced by that day's current summary stamped `now`; all other dates' records are unchanged, and so are the other tables |
| `Database.Database.BuscarFechamento` | database.py:228-249 | Returns None exactly when no record exists; otherwise the stored record with that day's current list; it reads the state and writes nothing |
| `Database.DailyScenario` | database.py:149-201 | Storing "abc123" for 10.50 twice and then "xyz999" for 5.00 on the same day and closing it gives a report of 15.50 over 2 payments |
| `RateLimit.Recent` | app.py:69 | The pruned list keeps, with their multiplicity, exactly the timestamps t with now - t < window, and is never longer than before |
| `RateLimit.NextLog` | app.py:69-72 | After a call the list holds only timestamps within the window, drawn from the old list or equal to now; it contains now when the call was allowed; it never grows past the limit if it started within it |
| `RateLimit.AdmittedAtMostLimit` | app.py:67-81 | Of calls within one window, those admitted plus the timestamps already kept from earlier admissions never exceed the limit |
| `RateLimit.AtMostLimitPerWindow` | app.py:67-81 | Whatever an IP's list holds, of any sequence of calls that fall within one window, at most `limit` are let through |
| `RateLimit.SlidingWindow.constructor` | app.py:64-65 | A new limiter's dictionary is empty, so every IP starts with the empty list, as a `defaultdict(list)` gives |
| `RateLimit.SlidingWindow.Allow` | app.py:67-81 | Refuses exactly when at least `limit` timestamps are within the window, and then records nothing new; otherwise appends now; only this IP's list changes, and a bound on every list is kept |
| `RateLimit.RateLimitLogin` | app.py:67-73 | The login limiter is `Allow` with 5 attempts per 300 seconds |
| `RateLimit.RateLimitWebhook` | app.py:75-81 | The webhook limiter is `Allow` with 30 hits per 60 seconds |
| `Webhook.HexDigestIsAscii` | app.py:256-260 | A SHA-256 hex digest is non-empty and all ASCII |
| `Webhook.CheckSignature` | app.py:253-263 | A match holds exactly when the header (missing read as "") equals the digest of the raw body; a header with a non-ASCII character raises instead of comparing |
| `Webhook.MissingSignatureRejected` | app.py:254-263 | A missing or empty X-Signature header is compared and rejected as a mismatch |
| `Webhook.TamperedBodyRejected` | app.py:256-263 | A signature computed over one body does not authenticate a different body whose digest differs |
| `Webhook.FieldsOf` | app.py:265-270 | Present fields are used as given; a missing paymentId is "N/A", a missing amount 0, a missing status "CONFIRMADO" |
| `Webhook.MissingIdsShareOneRow` | app.py:265-271 | Once one payload without paymentId is stored, every later one is ignored |
| `Webhook.WebhookPix` | app.py:246-273 | The rate limit is counted first and refusal gives 429; then a mismatched signature gives 401 and a non-ASCII one 500; only an allowed, matching request stores, through INSERT OR IGNORE, the payment (with defaults) decoded from the same body the signature was checked over, and returns ok; in every other case the table is unchanged |
| `Scheduler.ClosingMinute` | app.py:307 | `hour == 23 and minute == 59` holds exactly when the time of day is in [23:59:00, 24:00:00) |
| `Scheduler.ClosingMinuteIsLastMinute` | app.py:307 | hour == 23 and minute == 59 holds exactly in the last 60 seconds of a day |
| `Scheduler.Step` | app.py:305-310 | An iteration fires exactly in the last minute of the day; the next check is 100 s later after firing and 30 s later otherwise |
| `Scheduler.FiringEndsTheDay` | app.py:307-310 | After a firing the next check falls on the following day, outside its closing minute |
| `Scheduler.StepKeepsDayOrder` | app.py:305-310 | An iteration never moves the day number back |
| `Scheduler.StepCoversWindow` | app.py:307-310 | The only iteration that passes the end of a day's closing minute is one that fires on that day |
| `Scheduler.RunSchedule` | app.py:304-310 | Over any number of iterations, every firing is at 23:59, no calendar day is closed twice, and every day whose closing minute lies wholly within the run is closed |
| `Scheduler.AutoCloseStep` | app.py:304-310 | In the closing minute the iteration runs `fechar_dia` for the current date, stamped with the current time; otherwise it changes nothing; it returns the time of the next check |
| `Guards.LoginRequired` | app.py:120-126 | Without user_id the request is redirected to /login; with it the wrapped view's outcome is returned |
| `Guards.RoleRequired` | app.py:128-136 | The wrapped view's outcome is returned exactly when the session's tipo is the role (or the view itself forbids); otherwise 403 |
| `Guards.EmpresaRequired` | app.py:138-144 | The wrapped view's outcome is returned exactly when the session has empresa_id (or the view itself forbids); otherwise 403 |
| `Guards.Guarded` | app.py:120-144 | A view under the three decorators runs exactly when the session has user_id, tipo equal to the role and empresa_id; without user_id it redirects to login; otherwise it is forbidden |
| `Guards.RolesExclusive` | app.py:128-136 | No session passes both the "gerente" and the "caixa" guard |

## Left out

- SQLite plumbing (`get_connection`, commit, close, `CREATE TABLE IF NOT EXISTS`): the tables are in-memory fields. Statement atomicity under concurrent writers is not modelled, since the model runs one call at a time.
- `listar_usuarios` (database.py:101-111): a plain SELECT ordered by criado_em that no rule depends on.
- The `login` route (app.py:161-193): CSRF token handling, session writes and redirects are Flask glue. Its discrepancy with `autenticar_usuario` is described above.
- Flask glue: routing, templates, `redirect`/`abort` as HTTP mechanics (they are `Response` and `Guards.Outcome` values here), cookies, `security_headers`, `inject_csrf` and `secrets.token_hex`.
- HMAC-SHA256 and werkzeug password hashing: foreign code, passed in as the function `mac`, the function `checkHash` and precomputed hash strings.
- JSON decoding: `decode` maps the signed body to three optional fields. The model does not cover JSON values of other types, such as a null `paymentId` (SQLite's UNIQUE admits many NULLs), a non-numeric `amount` that makes `float()` raise, or a body that is not a JSON object.
- Floating point: `valor` and `total` are exact reals. The `float(...)` conversions and REAL columns are not modelled.
- The PDF report (`relatorio_pdf`), SocketIO and `logs.py`: layout, an unused broadcaster and printing.
- Threads and clocks: `Thread`, `time.sleep`, `time.time` and `datetime.now` are parameters. One `now` stands for both clock readings inside `fechar_dia`, and the date text of a day number is the parameter `dateText`.
- Scheduler.RunSchedule: assumes each sleep ends exactly on time and each iteration takes no time. The at-most-once-per-day result holds for any longer gaps too, but the result that every day is closed needs the 30 s poll.
- Time zones and daylight saving: the scheduler's local day is `t / 86400`.
- Environment loading and the startup check of the secrets (app.py:4-18).
- Tenancy: the code has none (see above), so the model has none.
