# FechamentoCaixa — a Dafny model of the daily cash ledger

FechamentoCaixa is a small Django application for closing a shop's till day by day.

- Each business date has one closing record (`FechamentoCaixa`). It holds the counted opening balance (`saldo_inicial`) and closing balance (`saldo_final_fisico`).
- Movements (`Movimentacao`) are booked against a day: card/Pix sales (`CARTAO`), specific cash entries or supplies (`DINHEIRO`), and cash withdrawals (`SAIDA`).
- Cash sales are never recorded. They are inferred from the till: what left plus what remains, minus what was there plus what came in, clamped at zero.

This project models the core of that system and proves its properties.

- **Models**: the two tables, with money as integer cents. Two-decimal, ten-digit fields give at most 9 999 999 999 cents.
- **Aggregates, Services, Signals**: the per-type sums and the reconciliation of `GestorCaixa.calcular_resumo`. Also the two cache refreshes: the service method and the `post_save`/`post_delete` signal handler.
- **Ledger**: the store. A `map` from dates to records, which makes the date key unique. Movements are a sequence, with cascade deletion and a signal fired after each add, edit and delete.
- **Calendar, Diario**: the day view `diario_caixa`.
  - Navigation to the previous and next day, over Python's date range 0001-01-01..9999-12-31.
  - Get-or-create of the visited day.
  - Carry-forward of the opening balance from the most recent earlier record.
  - The view's own totals.
- **MoneyMask**: the input mask `aplicarMascaraMoeda`. It formats a digit string as `1.234,56`. Also the cleaner that turns the masked text back into `1234.56` on submit.
- **FormSubmit**: the submit-time rewrite of masked inputs into hidden fields, and the two double-submit guards (the `static/` and `staticfiles/` copies of `forms.js`).
- **CategorySelect**: the category filter of the movement form.
- **SiteGate**: the site-wide password middleware, as written and corrected.

The application keeps two definitions of total revenue.

- `GestorCaixa.calcular_resumo` counts card sales plus inferred cash sales.
- The day view also adds the specific cash entries.

financeiro/services.py:36 sets `total_geral = cartao + dinheiro`; financeiro/views.py:69 adds `entradas_dinheiro_especificas` on top. The model defines both, and `Diario.DiarioExcedeServicoPorSuprimentos` proves that they differ by exactly the supplies.

## Model

| member | source | states |
|---|---|---|
| Models.LerTipo | financeiro/models.py:15-19 | a stored `tipo` code decodes to the choice whose code it is, and any other string decodes to nothing |
| Models.TipoCodeRoundTrip | financeiro/models.py:15-21 | every choice's code decodes back to that choice, and fits the column's `max_length=10` |
| Models.NovoFechamento | financeiro/models.py:5-8 | a newly created day has the given date, a zero opening balance, a zero closing balance and zero caches |
| Models.NovaMovimentacao | financeiro/models.py:20-23 | a movement created without a type is a card sale (`CARTAO`) of the given day and amount |
| Ledger.AdicionarComTipoPadrao | financeiro/models.py:21 | posting the movement form with its type select left at the initial choice appends exactly the default movement: a card sale |
| Models.MovimentosDo | financeiro/models.py:20 | the movements of a day are exactly those whose foreign key is that day |
| Models.MovimentosDoAppend | financeiro/models.py:20 | a day's movements of a concatenated list are its movements of each part, in order |
| Models.MovimentosDoIgnoresOthers | financeiro/models.py:20 | a list with no movement of a day yields none for it |
| Aggregates.SomaSqlMatchesSoma | financeiro/services.py:18-23 | the SQL `SUM` per type is NULL exactly when the day has no movement of that type, and `or 0` turns it into the in-memory sum |
| Aggregates.SomaTipoAppend | financeiro/views.py:54-60 | summing one type over a concatenation adds the sums of the parts |
| Aggregates.SomaTipoSemTipo | financeiro/services.py:21-23 | a type with no movements sums to 0 |
| Aggregates.SomarGerador | financeiro/views.py:54-60 | the generator `sum(m.valor for m … if m.tipo == t)` equals the per-type sum, and is 0 when the type is absent |
| Aggregates.ResumoRapido | financeiro/services.py:18 | with `or 0`, each aggregate is the sum of its type (supplies are `DINHEIRO`), and an empty day aggregates to NULL everywhere |
| Services.VendaDinheiro | financeiro/services.py:26-29 | inferred cash sales are never negative. When positive, the till balances exactly: opening + supplies + sales − withdrawals = closing. When zero, the closing count is at most opening + supplies − withdrawals |
| Services.VendaDinheiroIsLeast | financeiro/services.py:26-29 | the clamped value is the least non-negative sales figure that accounts for the closing count |
| Services.Resolver | financeiro/services.py:21-37 | card, supply and withdrawal totals are returned unclamped; cash sales satisfy the till equations; total revenue is card plus cash sales |
| Services.CalcularResumo | financeiro/services.py:12-37 | each total is the sum of that day's movements of its type; cash sales balance the till; `total_geral` = card + cash sales, with supplies excluded |
| Services.DiaSemMovimentos | financeiro/services.py:21-29 | a day with no movements has zero totals and earns max(0, closing − opening) |
| Services.AtualizarCacheDoBanco | financeiro/services.py:39-54 | after the refresh all three caches equal the day's sums, and the date and both balances are unchanged |
| Services.CacheMatchesLive | financeiro/services.py:12-54 | when the caches are complete, the summary computed from them equals the live `calcular_resumo` |
| Services.AtualizarCacheIdempotente | financeiro/services.py:39-54 | refreshing twice gives the same record as refreshing once |
| Signals.AtualizarCacheFechamento | financeiro/signals.py:6-18 | after the handler, the card and withdrawal caches equal the day's sums; the supply cache, the date and both balances are unchanged |
| Signals.SinalIdempotente | financeiro/signals.py:11-18 | firing the handler twice gives the same record as firing it once |
| Signals.SinalSemMovimentos | financeiro/signals.py:11-17 | a day without movements gets both caches set to 0 |
| Signals.SinalAposAtualizarCache | financeiro/signals.py:11-18 | the handler keeps the caches complete after a service refresh |
| Signals.SinalNaoAtualizaSuprimento | financeiro/signals.py:16-18 | a day with a 5.00 supply keeps a stale supply cache of 0 after the handler, so the cache disagrees with the live sum |
| Ledger.IndiceDe | financeiro/views.py:92 | the lookup by id finds a position holding that id, or reports that no movement has it |
| Ledger.Disparar | financeiro/signals.py:6-18 | firing the signal for a day refreshes that day's card and withdrawal caches and keeps its date, both balances and its supply cache. No other day and no movement changes |
| Ledger.ProximoId | financeiro/views.py:42 | the primary key given to a new movement is larger than every id in use |
| Ledger.AdicionarMovimentacao | financeiro/views.py:37-42 | an invalid form (a `tipo` code outside the choices, an empty or over-long `nome`, a `valor` beyond the column) saves nothing. A valid one appends a movement of the visited day with the posted type code, name and amount, under an id no stored movement has. The set of days is unchanged, and so is every other day's record. The visited day keeps its date, balances and supply cache, and the post_save handler leaves its card and withdrawal caches equal to its sums |
| Ledger.DeletarMovimentacao | financeiro/views.py:91-95 | deleting an existing id removes exactly that movement; an unknown id is not found (404) and nothing else fails. The set of days is unchanged, and so is every record other than the movement's day, which keeps its date, balances and supply cache, and whose card and withdrawal caches the post_delete handler leaves equal to its sums |
| Ledger.EditarMovimentacao | financeiro/views.py:98-105 | an unknown id is not found (404); an invalid form (bad `tipo` code, `nome` or `valor`) saves nothing; otherwise editing replaces the type (with the posted code), name and amount of exactly that movement, keeping its id and day. The set of days is unchanged, and so is every record other than the movement's day, which keeps its date, balances and supply cache, and whose card and withdrawal caches the post_save handler leaves equal to its sums |
| Ledger.SemDia | financeiro/models.py:20 | the cascade keeps exactly the movements of other days |
| Ledger.DeletarFechamento | financeiro/models.py:20 | deleting a day removes its record and, by cascade, every movement of it, and keeps every other movement |
| Ledger.SemDiaKeepsOtherDays | financeiro/models.py:20 | the cascade leaves the movement lists of other days unchanged |
| Ledger.SemDiaKeepsIds | financeiro/models.py:20 | the cascade keeps movement ids unique |
| Ledger.AdicionarPreservesInvariants | financeiro/views.py:37-42 | adding a movement and firing the signal keeps the ledger well formed (one record per date, every movement on an existing day, unique ids, every row within its column constraints) and every card and withdrawal cache fresh |
| Ledger.DeletarPreservesInvariants | financeiro/views.py:91-95 | deleting a movement and firing the signal keeps the ledger well formed and its caches fresh |
| Ledger.EditarPreservesInvariants | financeiro/views.py:98-105 | editing a movement and firing the signal keeps the ledger well formed and its caches fresh |
| Ledger.DeletarFechamentoPreservesInvariants | financeiro/models.py:20 | deleting a day keeps the ledger well formed and its caches fresh, and leaves no movement of that day |
| Calendar.DaysInMonth | financeiro/views.py:17-18 | months have 28 to 31 days: April, June, September and November 30, February 29 exactly in leap years, the rest 31 |
| Calendar.BeforeIsStrictTotalOrder | financeiro/views.py:24 | date order (`data__lt`, `order_by('-data')`) is a strict total order |
| Calendar.Next | financeiro/views.py:18 | `+ timedelta(days=1)` overflows exactly at 9999-12-31; otherwise it yields a later valid date |
| Calendar.Prev | financeiro/views.py:17 | `- timedelta(days=1)` overflows exactly at 0001-01-01; otherwise it yields an earlier valid date |
| Calendar.PrevOfNext | financeiro/views.py:17-18 | going forward one day and back again returns the same date, across month, year and leap-day boundaries |
| Calendar.NextOfPrev | financeiro/views.py:17-18 | going back one day and forward again returns the same date |
| Calendar.NextIsImmediate | financeiro/views.py:18 | no valid date lies strictly between a date and its successor |
| Calendar.PrevIsImmediate | financeiro/views.py:17 | every date earlier than d is d's predecessor or earlier than it |
| Calendar.NextAddsOneDay | financeiro/views.py:17-18 | the successor's proleptic Gregorian ordinal (Python's `toordinal`) is exactly one more |
| Diario.UltimoAntesUnique | financeiro/views.py:24 | there is at most one most-recent-earlier record |
| Diario.UltimoAntes | financeiro/views.py:24 | the query returns the record with the greatest date strictly before d, or none exactly when no record is earlier |
| Diario.ObterOuCriar | financeiro/views.py:22 | afterwards the date has a record; it is created (zeroed) exactly when it did not exist; an existing record is kept |
| Diario.TransportarSaldo | financeiro/views.py:24-30 | afterwards the opening balance equals the latest earlier record's closing count. It saves exactly when they differed, changes nothing else, and changes nothing when no earlier record exists |
| Diario.Visitar | financeiro/views.py:12-30 | a visit fails exactly at the calendar ends (OverflowError). Otherwise the neighbours are d−1 and d+1 and exactly d is added. The record is created iff missing and its opening balance is carried forward. Nothing else changes, and nothing changes when nothing was created or saved |
| Diario.VisitarIdempotente | financeiro/views.py:22-30 | visiting the same day again creates nothing and saves nothing |
| Diario.ProximoDiaHerdaSaldo | financeiro/views.py:24-30 | visiting the day after an existing record sets its opening balance to that record's closing count |
| Diario.VisitarPreservesLedger | financeiro/views.py:22-30 | a visit keeps the ledger well formed and its signal caches fresh |
| Diario.TotaisDoDiario | financeiro/views.py:53-69 | the view's totals are that day's per-type sums; `dinheiro_miudo` is clamped at 0 and balances the till with the specific entries; `geral` = card + cash sales + specific entries |
| Diario.DiarioExcedeServicoPorSuprimentos | financeiro/views.py:69 | for the same data, the view and `calcular_resumo` agree on every figure except total revenue, where the view's is larger by exactly the supplies |
| MoneyMask.Digits | static/js/utils.js:9 | `replace(/\D/g, "")` leaves only digits |
| MoneyMask.DigitsAppend | static/js/utils.js:9 | stripping non-digits distributes over concatenation |
| MoneyMask.NatToString | static/js/utils.js:11 | the integer part is a digit string of the amount with no leading zero except a lone `0` |
| MoneyMask.ToFixed2Digits | static/js/utils.js:11 | `(n / 100).toFixed(2)` carries the digits of the integer part, then two decimals, and denotes exactly n cents |
| MoneyMask.ToFixed2 | static/js/utils.js:11 | `toFixed(2)` of an amount is an integer part without leading zeros, a point, and two decimals that together denote exactly the cents |
| MoneyMask.ReplaceFirstKeepsDigits | static/js/forms.js:11 | replacing the first occurrence of a non-digit by digit-free text keeps the digit content |
| MoneyMask.RegexGroupOnlyAddsDots | static/js/utils.js:13 | the grouping regex only inserts dots: the digits are unchanged and removing dots from input and output gives the same text |
| MoneyMask.RegexGroupDigits | static/js/utils.js:13 | on a run of digits followed by a non-digit, the regex inserts a `.` after each digit that is followed by a positive multiple of three digits |
| MoneyMask.GroupLeftIsAgrupar | static/js/utils.js:13 | that left-to-right insertion equals grouping in threes from the right |
| MoneyMask.AgruparShape | static/js/utils.js:13 | the grouped integer part is one to three digits followed by `.ddd` groups |
| MoneyMask.AgruparOnlyAddsDots | static/js/utils.js:13 | grouping only inserts dots: removing them gives back the digits |
| MoneyMask.PtBrShape | static/js/utils.js:11-13 | the masked text is a grouped integer part, one `,`, and exactly two digits, and it denotes exactly the amount in cents |
| MoneyMask.Mask | static/js/utils.js:8-15 | an input with no digits is left untouched; otherwise the output is the pt-BR form of the amount its digits spell in cents |
| MoneyMask.MaskFormats | static/js/utils.js:11-13 | replacing the point and grouping turns `toFixed(2)` output into the grouped pt-BR form |
| MoneyMask.DigitsOfPtBr | static/js/utils.js:11-13 | the digits of a masked amount spell the same number of cents |
| MoneyMask.MaskIdempotent | static/js/utils.js:9-13 | masking an already masked value returns it unchanged |
| MoneyMask.Unmask | static/js/forms.js:70 | the cleaner keeps every digit, and its output has a decimal point exactly when the input had a comma; staticfiles/js/forms.js:43 is the same expression |
| MoneyMask.UnmaskPtBr | static/js/forms.js:70 | the cleaner turns every masked amount back into `I.CC` with the same cents |
| MoneyMask.UnmaskMask | static/js/forms.js:70 | for any input with digits, cleaning the masked text gives the `toFixed(2)` form of the amount the digits spell |
| MoneyMask.CarregarValor | static/js/forms.js:10-14 | on page load, an empty value stays empty, a value with digits is shown as its mask, and a value without digits stays without |
| MoneyMask.CicloCompleto | static/js/forms.js:9-14 | a value from the server (`I.CC`) that is loaded, masked and cleaned comes back unchanged |
| MoneyMask.MaskDropsSign | static/js/utils.js:9 | a minus sign is discarded by the mask |
| FormSubmit.BuscarOculto | static/js/forms.js:74 | the hidden-field lookup finds the first field with that name, or none exists |
| FormSubmit.LimparCampo | static/js/forms.js:67-86 | an input with a value and a name loses its name, and its name's hidden field holds the cleaned value. Every other hidden value is unchanged, and hidden names stay unique. An input with no value or no name is left as it was |
| FormSubmit.LimparCampos | static/js/forms.js:67-86 | every input keeps its value; inputs with a value lose their name; hidden names stay unique |
| FormSubmit.LimparCamposKeepsOtherNames | static/js/forms.js:67-86 | hidden fields no filled input names are left as they were |
| FormSubmit.LimparCamposWritesHidden | static/js/forms.js:67-86 | the hidden field of the last filled, named input of a name holds its cleaned value |
| FormSubmit.DispararSubmitLimpo | static/js/forms.js:48-51 | the guard marks the form as submitting and submits exactly when it was not already submitting |
| FormSubmit.Reagir | static/js/forms.js:26-44 | a submit event and a blur of the closing-balance field have the same effect: the form ends up marked, and is submitted only if it was not marked before |
| FormSubmit.Executar | static/js/forms.js:26-51 | any sequence of submit and blur events submits a fresh form exactly once (if there is any event), and never again |
| FormSubmit.EnviarAntigo | staticfiles/js/forms.js:25-34 | the submit handler disables a present button and submits unless it was already disabled |
| FormSubmit.GuardaAntiga | staticfiles/js/forms.js:23-61 | with a button, repeated submits reach `form.submit()` at most once; without one, every submit does |
| CategorySelect.TipoFiltro | static/js/forms.js:120-122 | DINHEIRO maps to ENTRADA, CARTAO to CARTAO, and every other type to SAIDA |
| CategorySelect.Filtrar | static/js/forms.js:125 | a category survives the filter exactly when it is of the requested kind |
| CategorySelect.FiltrarAppend | static/js/forms.js:125 | filtering keeps the original order |
| CategorySelect.Opcoes | static/js/forms.js:127-132 | one option per category, with its id as value and its name as text |
| CategorySelect.AtualizarSelect | static/js/forms.js:98-145 | a disabled empty placeholder comes first. An empty type disables the select and shows only the placeholder. Otherwise the options are exactly the categories of the mapped kind, with the placeholder text saying when none was found. The value is the preselected category only on initial load and only if it is among them. The value is always one of the options |
| CategorySelect.TrocaDeTipoReseta | static/js/forms.js:147-148 | a type change resets the select to the placeholder |
| CategorySelect.OpcoesSaoCategoriasDoTipo | staticfiles/js/forms.js:98-110 | the option list after the placeholder is the kind's categories of each part of the data, in order |
| SiteGate.Chamar | core/middleware.py:8-27 | as written, a request passes exactly when the session is unlocked, the path is `/site-login/`, or it starts with `/static/`. Every other request is redirected to `/site-login/`, and the session flag never changes |
| SiteGate.SenhaCorretaNaoDesbloqueia | core/middleware.py:14-24 | posting the correct password to the login page of a locked session is handed on without unlocking it |
| SiteGate.ChamarCorrigido | core/middleware.py:8-27 | with the password check first, a locked session is unlocked exactly by posting the right password (default `admin`). A wrong password re-renders the login page, and the login page and static files still pass |
| SiteGate.CorrigidoSoMudaEnvioDeSenha | core/middleware.py:14-24 | the correction changes the outcome of exactly the password submissions of locked sessions |
| SiteGate.DesbloqueioPersiste | core/middleware.py:10-11 | once unlocked, every further request passes |

## Left out

- HTTP handling in `diario_caixa`: the choice on the button name and the balance form (financeiro/views.py:44-49), the rendered context and the redirects. `Diario.Visitar` takes the date as a parameter instead of `timezone.now()` or `strptime`.
- Parsing `data_iso` with `strptime`: a malformed string raises before the model starts, and `Visitar` takes a valid date.
- `financeiro/forms.py` widget attributes and `core/urls.py` routing. The route `api_dados_caixa` names a view that is not part of this model.
- The UI-only scripts (`caderno.js`, `layout.js`, both `script.js`, `categoria.js`) and `formatarMoedaParaExibicao`, which delegates to `toLocaleString`.
- MoneyMask.Mask: uses exact integer cents for `parseInt(value) / 100` and `toFixed(2)`. In double precision the two first disagree above about 7·10^15 cents (beyond 2^52 cents; for example 7 036 874 417 766 401 cents prints as `…64,02`), and that rounding is not modelled. Nor are the two non-numeric outputs of very large inputs: from 10^23 cents on, `toFixed` switches to exponent notation (for example `1e+21`), and past about 309 digits `parseInt` gives `Infinity`, so the field shows `Infinity`; the model prints grouped digits in both cases.
- `criado_em`, the auto timestamp, carries no behaviour.
- Concurrency: simultaneous requests and the last-write-wins order of `save()` calls.
- The `resumo_rapido()` queryset is not part of this model. `Aggregates.ResumoRapido` specifies it as a SQL `SUM` per type, with `total_suprimento` taken over `DINHEIRO` as the day view does.
- The cache fields are not declared in financeiro/models.py, so `save(update_fields=…)` at financeiro/services.py:50-54 would fail on that model. The model adds the three fields with default 0.
- The name `saldo_final` read at financeiro/services.py:26 is treated as `saldo_final_fisico`.
- Ledger.DeletarMovimentacao and Ledger.EditarMovimentacao: require every movement to reference an existing day, the foreign-key constraint the database enforces.
- Form parsing: `MovimentacaoRapidaForm` receives `tipo` as the posted code, `nome` already stripped and `valor` already in cents. Whitespace stripping and rejection of malformed or over-precise decimals are not modelled; `Models.CamposValidos` keeps the choice check on the code (through `Models.LerTipo`) and the required, length and column-width checks.
- Ledger.ProximoId: one more than the largest id in use. The database sequence never reuses the id of a deleted row, while this may; both are fresh among the stored rows, which is all the invariants rely on.
- Ledger.AdicionarMovimentacao: requires the visited day to exist, which `get_or_create` at financeiro/views.py:22 has established when the form is processed.
- CategorySelect.AtualizarSelect: ids are compared as strings, so the loose `==` between a numeric id and the select's string value is not modelled.
- The DOM styling done by the scripts: the button spinner, background colours and opacity.
- Range reports, closed-day flags and category deletion are absent from the code and not modelled.

## Findings

| source | as written | input that shows it | evidently intended | confidence | as-written member | corrected member |
|---|---|---|---|---|---|---|
| core/middleware.py:14-24 | the pass-through for `/site-login/` at line 14 returns before the POST password check at line 18, so the check never runs and no request ever sets `site_unlocked` | a POST to `/site-login/` with the correct password from a locked session: it is handed on and the session stays locked | check the posted password first; unlock and redirect to `/` when it is correct, otherwise re-render the login page with "Senha incorreta" | high, not executed | SiteGate.SenhaCorretaNaoDesbloqueia | SiteGate.ChamarCorrigido |
