# express-jobly: SQL fragment builders and authorization gates

This project models the parts of the express-jobly REST backend that do
more than pass data along:

- `sqlForPartialUpdate` (helpers/sql.js). It turns the fields a caller wants
  to change, plus a table renaming JavaScript field names to column names,
  into the text of an SQL `SET` clause made only of placeholders, and the
  list of values those placeholders bind (module `Sql`).
- The query building in models/company.js (module `CompanyModel`):
  - `Company.update` appends the handle as the placeholder after the SET
    placeholders.
  - The unfinished `_makeWhereClause` helper of `Company.findAll` is modelled
    as it is written. It pushes onto two parallel arrays, `whereExps` and
    `values`, reading each placeholder from the current length of `values`.
- The authorization middleware, as middleware/auth.test.js asserts it
  (module `Auth`):
  - `authenticateJWT` fills `res.locals.user` from a bearer token. It is a
    method over a `Locals` object.
  - `ensureLoggedIn`, `ensureAdmin` and `ensureAdminOrCorrectUser` are pure
    pass/refuse decisions.
- Module `UserRoutes` records which gate guards each `/users` route, as
  routes/users.test.js exercises them.
- Module `Numerals` holds the decimal writing of placeholder positions
  (`$1`, `$2`, …), their reading back, and `Number(...)` on query strings.

The partner of the SET builder is a parser, `Sql.ParseSetCols`. It reads a
clause `"col"=$n, "col"=$n, …` the way a database would. The main result,
`Sql.SetColsRoundTrip`, proves three things about the builder's output:
- it reads back as one assignment per key, in key order;
- the key at index i is renamed through the table and gets placeholder
  `$(i+1)`;
- placeholder `$p` binds `values[p-1]`, which is that key's value.

Values never enter the SQL text:
- `Sql.SetColsIgnoresValues` proves that the SET text depends only on the
  keys and the rename table.
- `CompanyModel.ExpressionsIgnoreValues` proves that the WHERE expressions
  depend only on which filters are switched on.

External collaborators become parameters or are left out:
- The token library's `jwt.verify` is the parameter `verify`, an arbitrary
  function that returns the payload or nothing.
- The database is not modelled. The model stops at the SET clause, the
  handle placeholder and the parameter list that `update` would hand to
  `db.query`.

### Where the code and its intent differ

The model follows `_makeWhereClause` as written, not what it was evidently
meant to do. The pseudo query in the comment above `findAll`
(models/company.js:58-93) filters on both bounds and joins the expressions
with `AND`. The code does less:

- `nameLike` is pushed as given (line 105), so `ILIKE` matches the whole
  name unless the caller supplies wildcards; the pseudo query binds it the
  same way.
- The pseudo query uses strict `>` and `<`; the code uses `<=`.
- `maxEmployees` is pushed twice: first through `Number`, then raw.
- `minEmployees` adds no filter (a TODO in the code).
- No `WHERE … AND …` string is built or returned (line 119 is commented
  out). The model returns the two arrays as they stand at the end of the
  function.
- `findAll` never calls the helper.

The min/max check reads `data.minEmployees` and `data.maxEmployees`
(models/company.js:97), but `data` is not bound in `_makeWhereClause`. The
model's `CheckEmployeeBounds` reads the query's own fields instead. A
comment at that function records this.

## Model

| member | source | states |
|---|---|---|
| `Sql.SqlForPartialUpdate` | helpers/sql.js:32-45 | empty data fails with `BadRequestError("No data")` and only then; on success `values` has one entry per key, the i-th key's value at index i (`Object.values` order); the SET text is the `keys.map` fragments joined by `", "` |
| `Sql.KeysOf` | helpers/sql.js:33 | `Object.keys` gives one key per property |
| `Sql.ValuesOf` | helpers/sql.js:43 | `Object.values` gives one value per property |
| `Sql.KeysValuesAligned` | helpers/sql.js:33-43 | `Object.keys` and `Object.values` list the same properties in the same order: zipped, they give back the object |
| `Sql.ColumnName` | helpers/sql.js:38 | a non-empty rename wins; otherwise the key itself; never empty unless the key is |
| `Sql.Fragment` | helpers/sql.js:38 | the template `"col"=$n`: a quote, the column, a quote, `=$` and the numeral, so as long as those parts; `FragmentParses` reads it back as column col and position n |
| `Sql.Join` | helpers/sql.js:42 | `join(", ")`: the text starts with the first part and is as long as the parts plus one separator fewer than the parts; no parts give "" |
| `Sql.SetColsRoundTrip` | helpers/sql.js:37-43 | the emitted `setCols` parses back as exactly one assignment per key; the i-th names the renamed column (the key itself without a non-empty rename) with position i+1, and `values[position-1]` is that key's value, so `$i` binds `values[i-1]` |
| `Sql.JoinedFragmentsParse` | helpers/sql.js:37-42 | fragments numbered from k, joined by `", "`, read back as the same columns numbered k, k+1, … (so the number of `", "`-separated fragments equals the number of keys) |
| `Sql.FragmentParses` | helpers/sql.js:38 | one `"col"=$n` fragment reads back as column col and position n, whatever non-digit text follows |
| `Sql.SetColsIgnoresValues` | helpers/sql.js:37-39 | two data objects with the same keys give the same SET text: no value is interpolated |
| `Sql.UnusedRenamesIgnored` | helpers/sql.js:18-29 | rename entries for keys absent from the data change nothing in the result |
| `Sql.PartialDataExample` | helpers/sql.test.js:15-31 | `{firstName, lastName}` gives the literal text `"first_name"=$1, "last_name"=$2` and `["Bob", "Laster"]` |
| `Sql.PartialDataClause` | helpers/sql.test.js:29 | the two fragments of that test, joined, are the literal text `"first_name"=$1, "last_name"=$2` |
| `Sql.FullDataExample` | helpers/sql.test.js:33-50 | four keys give the fragments `"first_name"=$1`, `"last_name"=$2`, `"email"=$3`, `"is_admin"=$4` joined by `", "`; `email` passes through unrenamed |
| `Sql.NoDataExample` | helpers/sql.test.js:54-61 | `{}` fails with `BadRequestError` |
| `Numerals.Show` | helpers/sql.js:38 | writes a position as a non-empty string of decimal digits, one digit exactly for positions below 10; `ValueOfShow` reads it back as the same number |
| `Numerals.ValueOfShow` | helpers/sql.js:38 | the decimal numeral written after `$` reads back as the number it was written from |
| `Numerals.ShowInjective` | helpers/sql.js:38 | distinct positions give distinct placeholder texts |
| `Numerals.SpanDigitsExact` | helpers/sql.js:38 | the digits of a placeholder followed by a non-digit are read off exactly |
| `Numerals.ToNumberOfShow` | models/company.js:110 | the model's `Number`, read on any numeral the model writes, gives that numeral's value |
| `CompanyModel.UpdateQuery` | models/company.js:169-188 | empty data fails with `BadRequestError("No data")` before any statement exists; otherwise the parameters are the data's values in key order followed by the handle |
| `CompanyModel.UpdatePlaceholdersBind` | models/company.js:176-188 | the handle placeholder is `$(values.length+1)` and binds the handle; the SET placeholders are 1 to values.length, all below it, each binding its key's value |
| `CompanyModel.UpdateRenames` | models/company.js:170-175 | `numEmployees`→`num_employees`, `logoUrl`→`logo_url`; any other field, such as `name` or `description`, is its own column |
| `CompanyModel.CheckEmployeeBounds` | models/company.js:97-98 | fails exactly when both bounds are present, both read as numbers and min > max, and then with `BadRequestError("")` (so `"010"` against `"9"` fails) |
| `CompanyModel.BoundsCompareNumerically` | models/company.js:97-98 | with bounds written as canonical numerals the check fails with `BadRequestError("")` exactly when min > max, compared as numbers |
| `CompanyModel.MissingBoundPasses` | models/company.js:97 | the check passes whenever either bound is missing or empty |
| `CompanyModel.NumberValue` | models/company.js:110 | `Number(maxEmployees)` as a bound value is a number or NaN, never a string |
| `CompanyModel.NumberValueOfShow` | models/company.js:110 | `Number` of a numeral binds the number that numeral denotes |
| `CompanyModel.MakeWhereClause` | models/company.js:96-120 | the bounds check runs first and its failure is the result; otherwise `whereExps` and `values` have one entry per filter, expression i names `$(i+1)` and value i is that filter's value |
| `CompanyModel.PushPreservesPushed` | models/company.js:105-106 | pushing a value and then an expression naming the new `values.length` keeps the two arrays aligned |
| `CompanyModel.ActiveFilters` | models/company.js:104-117 | at most three filters, each `name ILIKE` or `num_employees <=` |
| `CompanyModel.Expression` | models/company.js:106 | an expression whose column and operator hold no `$` names exactly the placeholder it was built with |
| `CompanyModel.ExpressionReferencesPosition` | models/company.js:104-117 | expression i is the text `name ILIKE $(i+1)` or `num_employees <= $(i+1)`, and the placeholder it names is $(i+1) |
| `CompanyModel.ExpressionsIgnoreValues` | models/company.js:104-117 | queries that switch on the same filters get the same expression texts, whatever their values |
| `CompanyModel.FilterCount` | models/company.js:104-117 | a truthy `nameLike` adds one entry, a truthy `maxEmployees` two, `minEmployees` and falsy fields none |
| `CompanyModel.NameLikeBoundVerbatim` | models/company.js:104-107 | a truthy `nameLike` comes first as `name ILIKE $1`, bound to the string unchanged (no `%`) |
| `CompanyModel.MaxEmployeesPushedTwice` | models/company.js:109-117 | a truthy `maxEmployees` ends the list with two `num_employees <=` filters: `Number(max)`, then the raw string |
| `CompanyModel.MinEmployeesNotFiltered` | models/company.js:100-117 | changing `minEmployees` never changes the filters |
| `CompanyModel.NameAndMaxExample` | models/company.js:104-117 | `?nameLike=C&maxEmployees=200` gives `name ILIKE` "C", then `num_employees <=` 200, then "200" |
| `Auth.EnsureLoggedIn` | middleware/auth.test.js:53-73 | continues exactly for a principal with a (non-empty) username; the only refusal is `UnauthorizedError` |
| `Auth.EnsureAdmin` | middleware/auth.test.js:76-97 | continues exactly when `isAdmin` is true; the only refusal is `UnauthorizedError` |
| `Auth.EnsureAdminOrCorrectUser` | middleware/auth.test.js:99-124 | continues exactly for an admin or for the user the route names; the only refusal is `UnauthorizedError` |
| `Auth.AnonymousPassesNoGate` | middleware/auth.test.js:60-65 | without a principal all three gates refuse with `UnauthorizedError` |
| `Auth.AdminOrCorrectUserCases` | middleware/auth.test.js:100-117 | admin suffices, matching username suffices, a non-admin with another username is refused |
| `Auth.AdminPassesOwnerGate` | middleware/auth.test.js:100-104 | an admin passes the admin-or-user gate whatever username the route names |
| `Auth.EnsureLoggedInExamples` | middleware/auth.test.js:54-72 | `{username: "test"}` passes; no user and `{}` are refused |
| `Auth.EnsureAdminExamples` | middleware/auth.test.js:77-95 | `isAdmin: true` passes; `isAdmin: false` and `{}` are refused |
| `Auth.EnsureAdminOrCorrectUserExamples` | middleware/auth.test.js:100-124 | admin and correct user pass for route user "test"; "test2" and anonymous are refused |
| `Auth.BearerToken` | middleware/auth.test.js:25 | a token exactly when the header starts with `Bearer `, and then the header is `Bearer ` followed by the token |
| `Auth.Identify` | middleware/auth.test.js:24-49 | no header identifies nobody; an identity comes only from a bearer token, and is what `verify` gives for it |
| `Auth.UserAfterAuthentication` | middleware/auth.test.js:23-49 | the verified identity when there is one, the previous user otherwise; an existing user is never removed |
| `Auth.AuthenticateJWT` | middleware/auth.test.js:23-49 | always continues; sets `locals.user` to the payload when the token verifies, leaves `locals` unchanged otherwise |
| `Auth.IdentifyBearer` | middleware/auth.test.js:24-42 | `Bearer <token>` identifies exactly what `verify(token)` gives; no header identifies nobody |
| `Auth.AuthenticateJWTCases` | middleware/auth.test.js:23-49 | on fresh `locals`: a verified token gives its payload, no header and a refused token leave no user |
| `Auth.UnidentifiedRequestRefused` | middleware/auth.test.js:37-49 | a fresh request whose token is missing or refused stays anonymous and every gate refuses it |
| `UserRoutes.Gate` | routes/users.test.js:75-112 | `POST` and `GET /users` continue exactly for admins; `/users/:username` exactly for admins and that user; refusals are `UnauthorizedError` |
| `UserRoutes.Respond` | routes/users.test.js:75-112 | the handler's outcome is returned only when the route's gate continues; otherwise the response is `UnauthorizedError` |
| `UserRoutes.UnauthorizedBeforeHandler` | routes/users.test.js:104-112 | a refused request is unauthorized whatever its handler would answer (401 before 400 or 404) |
| `UserRoutes.AnonymousRefusedEverywhere` | routes/users.test.js:230-247 | an anonymous request reaches no `/users` handler |
| `UserRoutes.AdminReachesEveryHandler` | routes/users.test.js:256-261 | an admin reaches every `/users` handler, so a missing user answers 404 |
| `UserRoutes.NonAdminReachesOwnRecordOnly` | routes/users.test.js:236-253 | a non-admin is refused on `POST`/`GET /users` and reaches `/users/:username` handlers only for their own username |

## Left out

- Database I/O is not modelled: `Company.create`, `get` and `remove`, the
  SELECT of `findAll`, and the execution of the UPDATE. The same goes for
  the `NotFoundError` raised when the UPDATE returns no row
  (models/company.js:188-191).
- `sqlForSearch` (helpers/sql.js:59-62) is not modelled. It is an unfinished
  stub that does not parse.
- JWT signing and verification are not modelled. `verify` is an abstract
  parameter that returns the payload or nothing. The `iat` claim is carried
  as an opaque field.
- middleware/auth.js is not part of this model; the gates state the
  contract its tests assert.
- Auth.BearerToken: accepts only the exact prefix `Bearer `. How auth.js
  extracts the token is not visible, and the tests use only that prefix.
- Auth.EnsureLoggedIn: treats an empty username as missing (JavaScript
  truthiness). The tests do not distinguish this.
- Route wiring, request-body schemas, password hashing and HTTP status
  codes are not modelled. Only the gate-before-handler order of
  routes/users.test.js is kept.
- JavaScript coercion corner cases are not modelled:
  - `Number(...)` and unary `+` are modelled only for strings of decimal
    digits, read as exact integers. Whitespace, signs, fractions,
    exponents and hexadecimal prefixes such as `0x1f` all read as NaN. The
    empty string, which JavaScript reads as 0, also reads as NaN; both uses
    sit behind a truthiness test, so the empty string never reaches it.
    Digit strings too long for a double, which JavaScript reads as
    `Infinity`, read as their exact value.
  - Values are modelled as strings, integers, NaN, booleans and null.
  - Lookups in the rename table that would hit inherited properties are not
    modelled.
- Object key order is not modelled. `Object.keys` puts integer-like keys
  first; the model takes the data's entries in the order given.
- The text of `update`'s SQL template literal is not built. The model
  keeps its two interpolated parts, the SET clause and the handle
  placeholder, and the parameter list.
- Sql.SetColsRoundTrip: stated only for column names without a double
  quote. The source wraps names in quotes without escaping them, so a quote
  inside a name makes the text ambiguous.
- CompanyModel.UpdatePlaceholdersBind: stated only for column names
  without a double quote, for the same reason.
- CompanyModel.CheckEmployeeBounds: the source reads an unbound `data` at
  models/company.js:97, which would throw a `ReferenceError` if the helper
  were ever called. The model reads the query's own fields instead.
- CompanyModel.CheckEmployeeBounds: bounds are compared as exact
  integers, not as doubles. Above 2^53 the source rounds both sides
  (`"9007199254740993"` against `"9007199254740992"` compares equal and
  passes), while the model fails it.
- CompanyModel.BoundsCompareNumerically: "fails exactly when min > max"
  holds of the model's exact integers; for the source it holds only up to
  2^53, for the reason above.
- CompanyModel.NumberValue: the `Number(max)` pushed at
  models/company.js:110 is exact, not rounded to a double, and never
  `Infinity`.
- CompanyModel.MakeWhereClause: returns the two arrays it builds. The
  source returns nothing and never calls the helper, and the `WHERE`/`AND`
  joining is commented out, so it is not modelled.
- Idempotence needs no separate statement. Every builder is a function of
  its inputs, with no hidden state.
