# Product back office: a Dafny model

This project models the core of a small Rust HTTP service that runs a product
catalogue. It covers:

- the value objects (`ProductId`, `ProductName`, `ProductPrice`,
  `ProductCurrency`, `ProductTimeStamp`) and their validating constructors;
- the `Product` entity with its creation-before-update invariant;
- the domain error type and its display texts;
- the two problem-details builders (RFC 9457, with `type` links into
  section 15 of RFC 9110), and the mapping from domain errors to HTTP
  responses;
- the identity extractor, which reads the `Authorization: Bearer` header,
  verifies an RS256 token (section 3.3 of RFC 7518) against the issuer's JWK
  set (RFC 7517), and caches that key set for twelve hours;
- the permission check on the token's claims;
- the product row codec (`FromRow`) and the JSON serialiser;
- the repository's `get`, `get_by_id` and `save` over the `product` table;
- the `SaveProduct` and `GetProducts` use cases and the `save_product` handler.

Each Rust module is a Dafny module. Both `TryFrom<&str>` and `TryFrom<String>`
become one Dafny function over `string`. Library calls the model cannot see
enter as parameters:

- UUID parsing is a parameter `parse`. The hyphenated text form of section 3
  of RFC 4122 is the reference it must agree with (`Id.ReadsHyphenated`).
- JWT header decoding, JWK-set parsing, RSA key construction and token
  verification enter as the record `Identity.Oracles`.
- The clock enters as `now`, the database clock as `insertedAt`, the HTTP
  fetch of the key set as a `FetchOutcome`, and a driver failure as `fault`.

The database table is a sequence of rows in storage order.

Modelling choices and places where the code differs from its description:

- `ProductName` counts UTF-8 bytes (`value.len()`), not characters.
  `Utf8.Encode` gives that byte count from a string of Unicode scalar values.
- The timestamp's text form is `to_rfc3339_opts(Millis, false)`, which ends
  in the numeric offset `+00:00` (never `Z`). The code does emit that offset
  suffix, and so does the model.
- The key-set fetch accepts the body of any HTTP response. No status is
  checked.
- The extractor accepts any key of the RSA family. It does not look at an
  algorithm binding on the key itself; the RS256 requirement lives only in
  the verifier settings.
- `ProductCurrency` has no `to_primitive`, although the serialiser calls one.
  The model takes it to be the `Display` text, the same text `save` binds.
- `save` inserts only id, name, price and currency. The table definition is
  not part of this model. The repository tests read saved rows back, which
  implies that both timestamp columns have defaults. The model assumes both
  defaults take the same clock reading of the inserting transaction, which is
  why `ProductRepository.InsertedRow` stamps both with one `insertedAt`. A saved
  product therefore reads back with the store's reading
  (`ProductRepository.Stored`), not with the entity's own.
- The duplicate-save test evaluates `matches!` without asserting it. The model
  proves the property that test names (`ProductRepository.DuplicateSaveRefused`).
- `get` has no `ORDER BY`. The model returns rows in storage order, one of the
  orders the query allows.
- Row columns are read by position, as (id, name, price, currency,
  created_at, updated_at).

## Model

| member | source | states |
|---|---|---|
| Permissions.ToStringShape | src/contexts/ecommerce/common/domain/permissions.rs:3-10 | each permission's text is the product resource prefix followed by its action |
| Permissions.ToStringInjective | src/contexts/ecommerce/common/domain/permissions.rs:3-10 | distinct permissions have distinct texts |
| DomainError.ConstantTextNotPersistence | src/contexts/ecommerce/common/domain/error.rs:3-25 | no fixed error text starts with the persistence prefix "db error: " |
| DomainError.ParseDisplayRoundTrip | src/contexts/ecommerce/common/domain/error.rs:3-25 | every error is recovered from its display text |
| DomainError.DisplayInjective | src/contexts/ecommerce/common/domain/error.rs:3-25 | distinct errors display differently |
| Name.TryFrom | src/contexts/ecommerce/backoffice/domain/product/name.rs:9-22 | accepted exactly when the UTF-8 length is 1..256 bytes; the text is kept; otherwise InvalidProductName |
| Name.FromPrimitiveRoundTrip | src/contexts/ecommerce/backoffice/domain/product/name.rs:24-57 | every name is rebuilt from its primitive, and Display equals the primitive |
| Name.CharacterCountBounds | src/contexts/ecommerce/backoffice/domain/product/name.rs:17 | 1 to 64 characters are always accepted; the empty string and more than 256 characters are always refused |
| Name.AsciiName | src/contexts/ecommerce/backoffice/domain/product/name.rs:17 | for ASCII text the byte limit is a character limit |
| Name.TwoByteCharactersCountDouble | src/contexts/ecommerce/backoffice/domain/product/name.rs:17 | 129 copies of a two-byte character are refused, although 129 characters is under 256 |
| Price.TryFrom | src/contexts/ecommerce/backoffice/domain/product/price.rs:8-22 | accepted exactly when 0 <= value <= 1 000 000 000; otherwise InvalidProductPrice |
| Price.FromPrimitiveRoundTrip | src/contexts/ecommerce/backoffice/domain/product/price.rs:24-47 | every price is rebuilt from its primitive |
| Price.Bounds | src/contexts/ecommerce/backoffice/domain/product/price.rs:8-9 | both bounds are accepted and their neighbours outside are refused |
| Price.DisplayIsDecimal | src/contexts/ecommerce/backoffice/domain/product/price.rs:31-37 | the display text parses back to the price as a decimal integer |
| Decimal.ParseIntToDecimal | src/contexts/ecommerce/backoffice/domain/product/price.rs:35 | the decimal text of any integer parses back to it |
| Currency.TryFrom | src/contexts/ecommerce/backoffice/domain/product/currency.rs:22-44 | accepted exactly for "EUR" and "USD", and the result displays as its input; otherwise InvalidProductCurrency |
| Currency.DisplayRoundTrip | src/contexts/ecommerce/backoffice/domain/product/currency.rs:11-34 | each currency is recovered from its text |
| Currency.ExactMatchOnly | src/contexts/ecommerce/backoffice/domain/product/currency.rs:28-32 | lower case, padded and empty texts are refused |
| UuidText.ParseFormat | src/contexts/ecommerce/backoffice/domain/product/id.rs:23-27 | the hyphenated lower-case text of a UUID parses back to it |
| UuidText.FormatParse | src/contexts/ecommerce/backoffice/domain/product/id.rs:9-15 | any accepted hyphenated text is re-formatted as its lower-case form |
| UuidText.FormatInjective | src/contexts/ecommerce/backoffice/domain/product/id.rs:38-44 | distinct UUIDs have distinct texts |
| Id.TryFrom | src/contexts/ecommerce/backoffice/domain/product/id.rs:9-15 | accepted exactly when the UUID parser accepts, with its UUID; otherwise InvalidProductId |
| Id.FromToUuid | src/contexts/ecommerce/backoffice/domain/product/id.rs:17-21 | `from` and `to_uuid` are inverse and injective |
| Id.PrimitiveRoundTrip | src/contexts/ecommerce/backoffice/domain/product/id.rs:23-27 | an id is rebuilt from its primitive by any parser that reads hyphenated text |
| Id.HyphenatedAccepted | src/contexts/ecommerce/backoffice/domain/product/id.rs:54-62 | every hyphenated text is accepted with the UUID it spells |
| Id.ToPrimitiveInjective | src/contexts/ecommerce/backoffice/domain/product/id.rs:23-27 | distinct ids have distinct primitives |
| Timestamp.WrapperIsTransparent | src/contexts/ecommerce/backoffice/domain/product/timestamp.rs:3-36 | wrapping is injective, and ordering compares the instants |
| Timestamp.ToDateTime | src/contexts/ecommerce/backoffice/domain/product/timestamp.rs:26 | the civil date and time of an instant is a valid date and composes back to its millisecond count |
| Timestamp.DisplayLayout | src/contexts/ecommerce/backoffice/domain/product/timestamp.rs:22-28 | the text (for years 0..9999) is 29 characters, with the date and time separators, 3 fraction digits and "+00:00" |
| Timestamp.ParseDateTimeText | src/contexts/ecommerce/backoffice/domain/product/timestamp.rs:26 | a valid four-digit-year date and time is read back from its text as the instant it names |
| Timestamp.DisplayRoundTrip | src/contexts/ecommerce/backoffice/domain/product/timestamp.rs:22-28 | the text parses back to the instant truncated to milliseconds |
| Product.Validate | src/contexts/ecommerce/backoffice/domain/product/mod.rs:44-53 | succeeds exactly when created_at <= updated_at; otherwise InvalidProductTimeStampRelation |
| Product.New | src/contexts/ecommerce/backoffice/domain/product/mod.rs:27-42 | the first failing check in order id, name, price, currency decides the error; success exactly when all four pass, with the inputs' values and both stamps equal to now; never the timestamp error |
| Product.NewIsValid | src/contexts/ecommerce/backoffice/domain/product/mod.rs:27-42 | every product `new` builds passes `validate` |
| Product.NewFromPrimitives | src/contexts/ecommerce/backoffice/domain/product/mod.rs:27-42 | a product's own primitives rebuild it, re-stamped |
| Problem.Default | src/libs/problem_details/mod.rs:3-10 | all fields empty and status 0 |
| Problem.SetType | src/libs/problem_details/mod.rs:61-64 | sets the type and leaves the other fields |
| Problem.SetTitle | src/libs/problem_details/mod.rs:66-69 | sets the title and leaves the other fields |
| Problem.SetDetail | src/libs/problem_details/mod.rs:71-74 | sets the detail and leaves the other fields |
| Problem.SetStatus | src/libs/problem_details/mod.rs:76-79 | sets the status and leaves the other fields |
| Problem.SettersIndependent | src/libs/problem_details/mod.rs:61-79 | setters of different fields commute, and a later set of a field overrides an earlier one |
| Problem.From400 | src/libs/problem_details/mod.rs:13-23 | the 400 link, status 400, title "Bad Request", detail equal to the title |
| Problem.From401 | src/libs/problem_details/mod.rs:25-35 | the 401 link, status 401, title "Unauthorized", detail equal to the title |
| Problem.From403 | src/libs/problem_details/mod.rs:37-47 | the 403 link, status 403, title "Forbidden", detail equal to the title |
| Problem.From503 | src/libs/problem_details/mod.rs:49-59 | the 503 link, status 503, title "Service Unavailable", detail equal to the title |
| Problem.ToJsonLayout | src/libs/problem_details/mod.rs:3-10 | members are written in the order type, title, detail, status |
| Problem.JsonRoundTrip | src/libs/problem_details/mod.rs:3-10 | the serialised record is read back unchanged |
| ProblemDet.From400 | src/libs/problemdet/mod.rs:13-20 | the 400 link, status and title, with an empty detail |
| ProblemDet.From401 | src/libs/problemdet/mod.rs:22-29 | the 401 link, status and title, with an empty detail |
| ProblemDet.From403 | src/libs/problemdet/mod.rs:31-38 | the 403 link, status and title, with an empty detail |
| ProblemDet.From503 | src/libs/problemdet/mod.rs:40-47 | the 503 link, status and title, with an empty detail |
| ProblemDet.AgreesWithProblemDetails | src/libs/problemdet/mod.rs:13-47 | each constructor equals the other library's one with its detail cleared |
| Http.FromU16 | src/contexts/ecommerce/common/infrastructure/http/errors.rs:32 | a status code exactly for 100..999, with that value |
| Http.UnauthorizedResponse | src/contexts/ecommerce/common/infrastructure/extractors/identity.rs:51-52 | status 401 with the 401 problem details |
| ErrorResponse.IntoResponse | src/contexts/ecommerce/common/infrastructure/http/errors.rs:7-37 | a JSON problem response whose status matches its body: 503 with the bare reason for Persistence, 403 for InvalidPermission, 400 with the display text otherwise |
| ErrorResponse.IntoResponseInjective | src/contexts/ecommerce/common/infrastructure/http/errors.rs:7-37 | distinct errors answer differently |
| ErrorResponse.PersistenceDetailIsReason | src/contexts/ecommerce/common/infrastructure/http/errors.rs:25-28 | a persistence error's detail is the reason, not its "db error: " display |
| ErrorResponse.NoTeapot | src/contexts/ecommerce/common/infrastructure/http/errors.rs:32 | the 418 fallback is never taken |
| Identity.CheckPermission | src/contexts/ecommerce/common/infrastructure/extractors/identity.rs:24-36 | succeeds exactly when the permission set exists and holds the permission's text; otherwise InvalidPermission |
| Identity.HeaderToStr | src/contexts/ecommerce/common/infrastructure/extractors/identity.rs:55-59 | succeeds exactly when every byte is visible ASCII or a tab, and keeps the bytes as characters |
| Text.SplitJoin | src/contexts/ecommerce/common/infrastructure/extractors/identity.rs:61 | the pieces of a split hold no separator and join back to the input |
| Text.JoinSplit | src/contexts/ecommerce/common/infrastructure/extractors/identity.rs:61 | joining separator-free pieces and splitting gives them back |
| Identity.BearerTokenIff | src/contexts/ecommerce/common/infrastructure/extractors/identity.rs:61-85 | a header yields a token exactly when it is "Bearer", one space, and a token with no space |
| Identity.MalformedHeaders | src/contexts/ecommerce/common/infrastructure/extractors/identity.rs:61-77 | a doubled space, a lower-case scheme and a bare scheme are refused |
| Identity.FindKey | src/contexts/ecommerce/common/infrastructure/extractors/identity.rs:115-119 | the key found is the first in the set that carries the kid; when none is found no key carries it |
| Identity.VerifyWithKeySet | src/contexts/ecommerce/common/infrastructure/extractors/identity.rs:107-180 | claims exactly when the document parses, the kid is found, the key is RSA, both settings are present, the RSA key builds and the token verifies under RS256 with audience and issuer domain + "/"; every failure is the 401 response |
| Identity.Extract | src/contexts/ecommerce/common/infrastructure/extractors/identity.rs:46-181 | any rejection is the 401 response; a missing header, an unreadable value, a value that is no bearer token or a token header without a kid is refused with the cells untouched; otherwise the result is the key-set verification of that token against the document the provider serves, and the cells are those it leaves |
| Identity.MissingHeaderUnauthorized | src/contexts/ecommerce/common/infrastructure/extractors/identity.rs:47-53 | no header gives 401 and leaves the cells alone |
| Identity.ExpiredCacheRefusesEveryToken | src/contexts/ecommerce/common/infrastructure/extractors/identity.rs:105-111 | with the write-once cells, after twelve hours every request is refused |
| Identity.RefreshedKeySetAccepts | src/contexts/ecommerce/common/infrastructure/extractors/identity.rs:105-111 | with the intended refresh, a token that verifies against the new key set is accepted after twelve hours |
| Identity.HeaderBytesToStr | src/contexts/ecommerce/common/infrastructure/extractors/identity.rs:55-59 | a visible-ASCII header value is read back as its own text |
| JwkCache.NewAsWritten | src/contexts/ecommerce/common/infrastructure/extractors/identity.rs:196-245 | within twelve hours the cached text (or "") is served with no change; a set document cell never changes; both-or-neither cells stay so |
| JwkCache.FirstInstall | src/contexts/ecommerce/common/infrastructure/extractors/identity.rs:197-201 | a successful first fetch is installed and served; a failed one serves "" and installs nothing |
| JwkCache.TwelveHoursStillCached | src/contexts/ecommerce/common/infrastructure/extractors/identity.rs:207 | exactly twelve hours after install the cached text is still served |
| JwkCache.RefreshAfterExpiryServesEmpty | src/contexts/ecommerce/common/infrastructure/extractors/identity.rs:207-211 | as written, after twelve hours every call serves "" and the cells never change |
| JwkCache.NewIntended | src/contexts/ecommerce/common/infrastructure/extractors/identity.rs:196-218 | within twelve hours the cache is served; after, a successful fetch replaces both cells and is served, and a failed one keeps the stale document |
| JwkCache.IntendedServesCache | src/contexts/ecommerce/common/infrastructure/extractors/identity.rs:196-218 | the intended provider serves exactly what its cells hold afterwards |
| JwkCache.IntendedAgreesUntilExpiry | src/contexts/ecommerce/common/infrastructure/extractors/identity.rs:196-218 | until a refresh of an installed document, the intended provider is the written one |
| ProductRow.GetColumn | src/contexts/ecommerce/backoffice/infrastructure/extensions/product.rs:32 | a column exactly for an index inside the row; otherwise the out-of-bounds error with the row's length |
| ProductRow.FromRow | src/contexts/ecommerce/backoffice/infrastructure/extensions/product.rs:28-67 | decodes exactly when the six columns have the right types and the value objects accept them, with the row's values; an empty row fails at column 0; a type-not-found failure names one of the three value-object types |
| ProductRow.FromRowToRow | src/contexts/ecommerce/backoffice/infrastructure/extensions/product.rs:28-67 | every product comes back from its row |
| ProductRow.ToRowFromRow | src/contexts/ecommerce/backoffice/infrastructure/extensions/product.rs:28-67 | a decoded row's product gives back its first six columns |
| ProductRow.FromRowSkipsValidation | src/contexts/ecommerce/backoffice/infrastructure/extensions/product.rs:51-66 | a row updated before it was created decodes into a product `validate` refuses |
| ProductRow.FromRowFirstFailure | src/contexts/ecommerce/backoffice/infrastructure/extensions/product.rs:32-57 | for every row, the error is that of the first refused column: a missing column is out of bounds at its index, a column of the wrong kind fails to decode at its index, and a refused name, price or currency is `TypeNotFound` naming `ProductName`, `ProductPrice` or `ProductCurrency` |
| ProductRow.FirstFailureWins | src/contexts/ecommerce/backoffice/infrastructure/extensions/product.rs:32-57 | an earlier column's failure hides a later one's |
| ProductJson.ToJsonLayout | src/contexts/ecommerce/backoffice/infrastructure/extensions/product.rs:8-26 | six members in the order id, name, price, currency, `__updated_at__`, `__created_at__` |
| ProductJson.ToJsonInjective | src/contexts/ecommerce/backoffice/infrastructure/extensions/product.rs:8-26 | distinct products serialise differently |
| ProductRepository.SaveError | src/contexts/ecommerce/backoffice/infrastructure/repositories/product.rs:66-76 | ProductAlreadyExists exactly for a database error with SQLSTATE 23505; otherwise Persistence with the driver's text |
| ProductRepository.Save | src/contexts/ecommerce/backoffice/infrastructure/repositories/product.rs:52-79 | succeeds exactly with no fault and a new id, appending the inserted row; a duplicate is ProductAlreadyExists; a failure changes nothing |
| ProductRepository.InsertedRow | src/contexts/ecommerce/backoffice/infrastructure/repositories/product.rs:53-62 | the inserted row carries the product's id |
| ProductRepository.SavePreservesUniqueIds | src/contexts/ecommerce/backoffice/infrastructure/repositories/product.rs:52-79 | saving keeps ids unique |
| ProductRepository.SaveHasId | src/contexts/ecommerce/backoffice/infrastructure/repositories/product.rs:52-79 | a successful save adds exactly its own id |
| ProductRepository.DuplicateSaveRefused | src/contexts/ecommerce/backoffice/infrastructure/repositories/product.rs:153-165 | saving the same id again is refused as a duplicate and changes nothing |
| ProductRepository.InsertedRowDecodes | src/contexts/ecommerce/backoffice/infrastructure/repositories/product.rs:52-79 | the row `save` writes decodes to the product with the store's timestamps |
| ProductRepository.GetById | src/contexts/ecommerce/backoffice/infrastructure/repositories/product.rs:34-50 | a fault is Persistence with its text; with no fault, none exactly when no row has the id, and otherwise the decoding of the first row with the id: its product, or Persistence with the decoding failure's text; every error is Persistence |
| ProductRepository.EmptyDatabaseGetById | src/contexts/ecommerce/backoffice/infrastructure/repositories/product.rs:125-132 | an empty table finds no product |
| ProductRepository.SaveThenGetById | src/contexts/ecommerce/backoffice/infrastructure/repositories/product.rs:134-142 | a saved product is found under its id, with the store's timestamps |
| ProductRepository.Get | src/contexts/ecommerce/backoffice/infrastructure/repositories/product.rs:20-32 | succeeds exactly when there is no fault and the first min(50, n) rows decode; then returns those rows' products, with distinct ids when the table's ids are unique; otherwise the error is Persistence with the text of the first row within the limit that does not decode |
| ProductRepository.EmptyDatabaseGet | src/contexts/ecommerce/backoffice/infrastructure/repositories/product.rs:97-102 | an empty table lists nothing |
| ProductRepository.SaveAllThenGet | src/contexts/ecommerce/backoffice/infrastructure/repositories/product.rs:104-123 | up to 50 products with distinct ids saved into an empty table are all listed, in order, with the store's timestamps |
| UseCases.SaveProductExec | src/contexts/ecommerce/backoffice/application/usecases/save_product.rs:32-41 | an invalid input returns its validation error with no change; success exactly for a valid input with no fault and a new id, appending the row of the submitted fields |
| UseCases.SaveProductThenGetById | src/contexts/ecommerce/backoffice/application/usecases/save_product.rs:32-41 | a saved input is found under its id with the submitted name, price and currency |
| UseCases.GetProductsExec | src/contexts/ecommerce/backoffice/application/usecases/get_products.rs:23-28 | the repository's listing: every row within the limit decoded in order, a fault's text, or the first decoding failure, always as a persistence error |
| SaveProductHandler.Handle | src/contexts/ecommerce/backoffice/infrastructure/http/save_product.rs:12-26 | without the create permission, 403 with no change; 202 exactly when the permission holds and the use case succeeds; a use-case error is answered as that error's response, unchanged; any other answer is a problem response with no change |
| SaveProductHandler.InvalidInputIsBadRequest | src/contexts/ecommerce/backoffice/infrastructure/http/save_product.rs:20-23 | an invalid body answers 400 with the message of the first refused field and stores nothing |
| SaveProductHandler.DuplicateIsBadRequest | src/contexts/ecommerce/backoffice/infrastructure/http/save_product.rs:20-23 | a duplicate id answers 400 with "product already exists" |
| SaveProductHandler.DriverFailureIsUnavailable | src/contexts/ecommerce/backoffice/infrastructure/http/save_product.rs:20-23 | any other driver failure answers 503 with the driver's text |
| SaveProductHandler.SaveProductRequest | src/contexts/ecommerce/backoffice/infrastructure/http/save_product.rs:12-26 | a refused token answers 401 and stores nothing; a verified one gets the handler's response and table; the cells are those the extractor leaves |
| SaveProductHandler.AcceptedOnlyWithCreatePermission | src/contexts/ecommerce/backoffice/infrastructure/http/save_product.rs:12-26 | nothing is stored, and nothing answers 202, without a verified token granting the create permission; an accepted request stores exactly one row |

## Left out

- JWT parsing, RSA key construction and signature, expiry, audience and
  issuer checks belong to the `jsonwebtoken` crate. They are the `Oracles`
  parameters. Only the settings handed to them are modelled.
- `reqwest`, the `OAUTH_DOMAIN` and `OAUTH_AUDIENCE` environment reads and
  the clock are inputs. The panic of `fetch` when `OAUTH_DOMAIN` is unset is
  not modelled, and neither is the test build's local key-set file.
- `OnceLock` concurrency, the async runtime and simultaneous requests are not
  modelled: each request is one step on the cache.
- The sqlx connection pool, the SQL text and Postgres itself are not
  modelled. The table is a sequence of rows, and the primary key is
  `ProductRepository.UniqueIds`.
- ProductRow.DecodeText: follows sqlx's wording for decode errors, but drops
  the nested source message of a column decode failure.
- Binding the id as text into a `uuid` column is taken to store that UUID.
- UUID text forms other than hyphenated (simple, braced, URN) are accepted
  or refused by the `parse` parameter. They are not modelled.
- `ProductId::default` (a random v4 UUID) takes the generated UUID as an
  input.
- Timestamps are integer nanoseconds since the Unix epoch. chrono's leap
  seconds, its serde form of a `DateTime`, and years outside 0..9999 in the
  round trip are not modelled.
- JSON text (quoting, escaping, numbers) is not modelled. A serialised object
  is an ordered member list.
- axum's request-body extraction and its rejections are not modelled; the
  handler takes an already decoded `SaveProductInput`. Routing, the GraphQL
  schema, telemetry, settings and `main` are not part of this model.
- The `get_products` HTTP handler is not modelled. It names a permission
  variant that does not exist and reads an `items` field the output does not
  have, so it does not say which permission it means to check.
- The test fixtures (`ProductBuilder`, the random name and price) are not
  modelled. The repository tests are modelled as the lemmas and methods cited
  above.

## Findings

| source | as written | input that shows it | evidently intended | confidence | as-written member | corrected member |
|---|---|---|---|---|---|---|
| src/contexts/ecommerce/common/infrastructure/extractors/identity.rs:14-15,207-211,234-244 | the key set and its install time sit in write-once `OnceLock` cells; a refresh after twelve hours fetches, `set` is refused, and `fetch` returns "" | a key set installed at t, any request at t + 12 h + 1 ns: the served document is "", which is no JWK set, so every token is refused from then on | a refresh replaces both cells together and serves the new document; a failed refresh keeps serving the old one | not executed | JwkCache.RefreshAfterExpiryServesEmpty | JwkCache.NewIntended |
