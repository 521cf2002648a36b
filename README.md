# Talabat product query engine, in Dafny

This project models the specification-driven product query engine of the
Talabat catalog backend, together with the small API helpers around it:

- **Specifications** (`specification.dfy`): `ISpecification` becomes the
  value `Specification` (criteria, includes, ascending and descending order
  keys, `Take`, `Skip`, `IsPaginationEnabled`). `BaseSpecification` becomes a
  class with those fields, its two constructors and the mutators
  `AddOrderByAsc`, `AddOrderByDesc` and `AddPagination`.
  `AsSpecification()` reads the class back as a value. Criteria are
  predicates on products. Order keys are `Price | Name`, and includes are
  `IncludeType | IncludeBrand`.
- **Query parameters** (`product_params.dfy`): `ProductParamsSpecification`
  is a class. Its `PageSize` setter clamps from above to 10 and never from
  below. `Valid()` states the invariant the private backing field keeps:
  the stored page size is at most 10.
- **Concrete specification** (`product_specification.dfy`): C#'s
  `ProductWithTypeAndBrandSpecification` has two constructors. They are
  modelled as two methods. Each allocates a `BaseSpecification` and runs the
  same steps: criteria, the two `Includes.Add` calls, the sort switch, and
  `AddPagination` in the parameters case. The pure functions
  `ParamsSpecification` and `IdSpecification` give the resulting values.
- **Evaluator** (`evaluator.dfy`, `ordering.dfy`): `GetQuery` runs its stages
  over a sequence of rows:
  1. filter;
  2. ascending sort;
  3. descending sort (not an `else` branch);
  4. skip, then take;
  5. the include fold.

  `Evaluate` is the function that specifies it. Sorting is a stable
  insertion sort, proved sorted and a permutation.
- **Repository** (`repository.dfy`): `GetAllAsync`, `GetById`,
  `ApplySpecification`, `GetAllAsyncWithSpec` and `GetByIdWithSpec` are
  functions of a `Database` value. That value holds the products table and
  the brand and type tables that navigation properties are loaded from. Since
  the database is a value, no operation can modify it.
- **API helpers** (`api_errors.dfy`, `picture_url.dfy`):
  - the `ApiResponse` class and its default messages;
  - the two derived responses, as values;
  - the picture-URL resolver.

The model reproduces the code's own behaviour, including these points:

- The listing's window is `Take = PageSize * PageIndex` and `Skip = PageSize`.
  Every page, the first included, starts after the first `PageSize` rows.
  From page 2 on it holds up to `PageSize * PageIndex` rows, clipped to what
  is left. `PageSize * PageIndex` is computed in 32-bit arithmetic and wraps
  for a large `PageIndex`; a wrapped, negative `Take` yields an empty page.
  See `ListingWindow` and `ListingSecondPageOfTwelve`.
- A null or empty sort token sets no ordering. Only a non-empty unknown token
  falls back to ordering by name.
- When both order keys are set, both sorts run and the descending one runs
  last.
- Pagination is enabled by default with `Take = 0`. The id constructor never
  calls `AddPagination`, so `GetByIdWithSpec` with the id specification
  returns null for every id. See `IdSpecificationFindsNothing`.

## Model

| member | source | states |
|---|---|---|
| `Specifications.BaseSpecification.constructor` | Talabat.Repository/Specifications/BaseSpecification.cs:99-107 | A fresh specification has no criteria, no includes and no ordering, has `Take = Skip = 0`, and has pagination enabled. |
| `Specifications.BaseSpecification.WithCriteria` | Talabat.Repository/Specifications/BaseSpecification.cs:108-111 | Stores exactly the given criteria. Every other field keeps its initial value. |
| `Specifications.BaseSpecification.AddOrderByAsc` | Talabat.Repository/Specifications/BaseSpecification.cs:113-116 | Sets only the ascending key. Criteria, includes, the descending key and pagination are unchanged. |
| `Specifications.BaseSpecification.AddOrderByDesc` | Talabat.Repository/Specifications/BaseSpecification.cs:117-120 | Sets only the descending key. An ascending key already set is not cleared. |
| `Specifications.BaseSpecification.AddPagination` | Talabat.Repository/Specifications/BaseSpecification.cs:121-126 | Enables pagination with `Take = take` and `Skip = skip`, take first. The new state does not depend on earlier calls, so the last call wins and a repeated call changes nothing. Criteria, includes and ordering are untouched. |
| `ProductParams.ClampPageSize` | Talabat.Repository/Specifications/ProductParamsSpecification.cs:17 | The stored page size is at most 10 and at most the value. It is either the value or 10. |
| `ProductParams.ClampPageSizeIdempotent` | Talabat.Repository/Specifications/ProductParamsSpecification.cs:17 | Clamping an already clamped value changes nothing. |
| `ProductParams.ProductParamsSpecification.constructor` | Talabat.Repository/Specifications/ProductParamsSpecification.cs:11-16 | Fresh parameters have `PageIndex = 1` and `PageSize = 5`. Sort, brand and type are absent. `Valid()` holds: the page size is at most 10. |
| `ProductParams.ProductParamsSpecification.SetPageSize` | Talabat.Repository/Specifications/ProductParamsSpecification.cs:17 | A value above 10 stores 10. Any other value, including 0 and negatives, is stored unchanged. `Valid()` holds afterwards. Sort, brand, type and page index are unchanged. |
| `Entities.Wrap32` | Talabat.Repository/Specifications/ProductWithTypeAndBrandSpecification.cs:48 | C#'s unchecked `int` result of a multiplication: equal to the product when the product fits in 32 bits, and congruent to it modulo 2^32 otherwise. |
| `ProductSpecifications.ParamsCriteria` | Talabat.Repository/Specifications/ProductWithTypeAndBrandSpecification.cs:26-28 | A product is accepted iff its brand matches the brand filter when one is given, and its type matches the type filter when one is given. |
| `ProductSpecifications.IdCriteria` | Talabat.Repository/Specifications/ProductWithTypeAndBrandSpecification.cs:51 | A product is accepted iff its id is the given id. |
| `ProductSpecifications.ParamsCriteriaWithoutFilters` | Talabat.Repository/Specifications/ProductWithTypeAndBrandSpecification.cs:26-28 | With neither brand nor type filter, the criteria accept every product. |
| `ProductSpecifications.ParamsCriteriaNarrowing` | Talabat.Repository/Specifications/ProductWithTypeAndBrandSpecification.cs:26-28 | The criteria accept a product iff each filter alone accepts it (AND). Adding a filter never accepts more. |
| `ProductSpecifications.ParamsSpecification` | Talabat.Repository/Specifications/ProductWithTypeAndBrandSpecification.cs:26-48 | Includes are exactly `[ProductType, ProductBrand]`. "PriceAsc" gives ascending price order only. "PriceDesc" gives descending price order only. Any other non-empty token gives ascending name order. Null or empty gives no ordering. Pagination is enabled with `Skip = PageSize` and `Take = PageSize * PageIndex`, wrapped to 32 bits. |
| `ProductSpecifications.IdSpecification` | Talabat.Repository/Specifications/ProductWithTypeAndBrandSpecification.cs:51-55 | The criteria accept exactly the products with that id. Includes are `[ProductType, ProductBrand]`. There is no ordering. Pagination stays enabled with `Take = Skip = 0`. |
| `ProductSpecifications.ProductWithTypeAndBrandFromParams` | Talabat.Repository/Specifications/ProductWithTypeAndBrandSpecification.cs:13-50 | For valid parameters, the parameters constructor allocates a new specification equal to `ParamsSpecification` of the parameters' values. Its `Skip` is therefore at most 10. |
| `ProductSpecifications.ProductWithTypeAndBrandFromId` | Talabat.Repository/Specifications/ProductWithTypeAndBrandSpecification.cs:51-55 | The id constructor allocates a new specification equal to `IdSpecification(id)`. |
| `Ordering.Insert` | Talabat.Repository/Specifications/SpecificationEvaluator.cs:23-27 | Inserting into a sorted sequence keeps it sorted and adds exactly that row. |
| `Ordering.SortBy` | Talabat.Repository/Specifications/SpecificationEvaluator.cs:23-27 | `OrderBy` / `OrderByDescending`: the result is sorted by the key in the given direction, and it is a permutation of the input. |
| `Ordering.LexLeTotal` | Talabat.Repository/Specifications/SpecificationEvaluator.cs:23-24 | Name order is total: of any two names, one sorts no later than the other. |
| `Ordering.LexLe` | Talabat.Repository/Specifications/SpecificationEvaluator.cs:23-24 | Ordinal name order. A prefix sorts no later than the longer name. If a non-empty name sorts no later than another, the other is non-empty and its first character is no smaller. |
| `Ordering.LexLeAntisymmetric` | Talabat.Repository/Specifications/SpecificationEvaluator.cs:23-24 | Two names that each sort no later than the other are equal. |
| `Ordering.LexLeTransitive` | Talabat.Repository/Specifications/SpecificationEvaluator.cs:23-24 | Name order is transitive. |
| `Ordering.SortedPairwise` | Talabat.Repository/Specifications/SpecificationEvaluator.cs:23-27 | In a sorted result, every earlier row precedes every later one, not just its neighbour. |
| `SpecificationEvaluator.Where` | Talabat.Repository/Specifications/SpecificationEvaluator.cs:20-21 | Each row occurs in the result as often as in the input if the criteria accept it, and not at all otherwise. |
| `SpecificationEvaluator.SkipCount` | Talabat.Repository/Specifications/SpecificationEvaluator.cs:30 | `Skip` drops exactly `count` rows when `0 <= count <= n`. It drops none for a count of 0 or less, and all `n` rows for a count of `n` or more. |
| `SpecificationEvaluator.Skip` | Talabat.Repository/Specifications/SpecificationEvaluator.cs:30 | `Skip(count)` returns the last max(0, n - max(0, count)) rows of the query, in order. |
| `SpecificationEvaluator.Take` | Talabat.Repository/Specifications/SpecificationEvaluator.cs:30 | `Take(count)` returns the first max(0, min(count, n)) rows of the query, in order. |
| `SpecificationEvaluator.PaginationStage` | Talabat.Repository/Specifications/SpecificationEvaluator.cs:29-30 | Without pagination the query is unchanged. With it, the result is the max(0, min(Take, n - k)) rows that follow the first k, where k is the number of rows `Skip` drops. |
| `SpecificationEvaluator.Load` | Talabat.Repository/Specifications/SpecificationEvaluator.cs:44-46 | One `Include` on one row changes only that navigation. The navigation is loaded iff its foreign key resolves, and is null otherwise. |
| `SpecificationEvaluator.IncludeStage` | Talabat.Repository/Specifications/SpecificationEvaluator.cs:44-46 | One `Include` on a query keeps the number of rows and their stored columns, and loads the navigation on every row whose key resolves. |
| `SpecificationEvaluator.IncludeAll` | Talabat.Repository/Specifications/SpecificationEvaluator.cs:44-46 | The `Aggregate` of includes keeps the number of rows and their stored columns. |
| `SpecificationEvaluator.Evaluate` | Talabat.Repository/Specifications/SpecificationEvaluator.cs:17-50 | The query is never longer than the input. Pagination with `Take <= 0` yields nothing. Without pagination there is one row per row that passes the criteria stage. |
| `SpecificationEvaluator.GetQuery` | Talabat.Repository/Specifications/SpecificationEvaluator.cs:17-51 | The staged query equals `Evaluate`. It is no longer than the input. Each of its rows is an input row the criteria accept, with the listed navigations loaded. |
| `SpecificationEvaluator.FilterStageSound` | Talabat.Repository/Specifications/SpecificationEvaluator.cs:20-21 | A row is in the criteria stage's output iff it is an input row the criteria accept. With no criteria the stage is the identity. |
| `SpecificationEvaluator.OrderedSound` | Talabat.Repository/Specifications/SpecificationEvaluator.cs:20-27 | After filtering and ordering, every row is an input row the criteria accept. |
| `SpecificationEvaluator.EvaluateRowsComeFromInput` | Talabat.Repository/Specifications/SpecificationEvaluator.cs:17-50 | Every output row is an accepted input row with its navigations loaded. The output is no longer than the input. |
| `SpecificationEvaluator.EvaluateSortedAscending` | Talabat.Repository/Specifications/SpecificationEvaluator.cs:23-24 | With only an ascending key set, the output is non-decreasing in that key. |
| `SpecificationEvaluator.EvaluateSortedDescending` | Talabat.Repository/Specifications/SpecificationEvaluator.cs:23-27 | With a descending key set, the output is non-increasing in that key, even if an ascending key is set too. |
| `SpecificationEvaluator.EvaluatePaginated` | Talabat.Repository/Specifications/SpecificationEvaluator.cs:29-30 | With pagination enabled, the output is the filtered, ordered rows from position `Skip` on (negative skip counts as 0), at most `Take` of them, clipped to the rows left, with navigations loaded. |
| `SpecificationEvaluator.EvaluatePaginatedLength` | Talabat.Repository/Specifications/SpecificationEvaluator.cs:29-30 | For `Skip >= 0`, the output length is max(0, min(Take, n - Skip)), where n is the number of filtered, ordered rows. |
| `SpecificationEvaluator.EvaluateWindow` | Talabat.Repository/Specifications/SpecificationEvaluator.cs:29-30 | For `Skip >= 0`, the output has max(0, min(Take, n - Skip)) rows. When `Skip <= n` it is the include fold over the ordered rows from position `Skip` on, that many of them. |
| `SpecificationEvaluator.EvaluateZeroTake` | Talabat.Repository/Specifications/SpecificationEvaluator.cs:29-30 | Pagination enabled with `Take = 0` gives an empty output. |
| `SpecificationEvaluator.EvaluateUnpaginated` | Talabat.Repository/Specifications/SpecificationEvaluator.cs:29-30 | With pagination disabled, the output length equals the number of rows the criteria accept. That is all input rows when there are no criteria. |
| `SpecificationEvaluator.EvaluateNeutral` | Talabat.Repository/Specifications/SpecificationEvaluator.cs:17-50 | No criteria, no ordering, pagination disabled and no includes: the output equals the input. |
| `SpecificationEvaluator.IncludeAllPointwise` | Talabat.Repository/Specifications/SpecificationEvaluator.cs:44-46 | The `Aggregate` of include stages over the query is the per-row include fold applied to each row. |
| `SpecificationEvaluator.LoadAllEffect` | Talabat.Repository/Specifications/SpecificationEvaluator.cs:44-46 | Including changes only navigation properties. Afterwards a navigation is loaded iff it already was, or it was listed and its foreign key resolves. |
| `SpecificationEvaluator.IncludeAllKeepsRows` | Talabat.Repository/Specifications/SpecificationEvaluator.cs:44-46 | The include fold keeps length, row order, ids and stored columns. Every listed navigation is then loaded on every row whose foreign keys resolve. |
| `SpecificationEvaluator.IncludeAllKeepsSorted` | Talabat.Repository/Specifications/SpecificationEvaluator.cs:44-46 | Including keeps a sorted query sorted. |
| `GenericRepository.GetAllAsync` | Talabat.Repository/Repositories/GenericRepository.cs:24-25 | Every row of the table, unfiltered and in table order. |
| `GenericRepository.FindById` | Talabat.Repository/Repositories/GenericRepository.cs:27-28 | A row with the id, or none exactly when no row carries it. |
| `GenericRepository.GetById` | Talabat.Repository/Repositories/GenericRepository.cs:27-28 | Returns a stored row whose id is `id`. Returns null iff no row has that id. |
| `GenericRepository.GetByIdFindsTheRow` | Talabat.Repository/Repositories/GenericRepository.cs:27-28 | With unique ids (a primary key), `GetById` returns exactly the row carrying the id. |
| `GenericRepository.ApplySpecification` | Talabat.Repository/Repositories/GenericRepository.cs:32-35 | The evaluated query over the products table is no longer than the table. Each of its rows is an accepted stored row with navigations loaded. |
| `GenericRepository.GetAllAsyncWithSpec` | Talabat.Repository/Repositories/GenericRepository.cs:37-40 | Returns only accepted stored rows, never more than the table. If no row matches, the result is the empty list, not an error. |
| `GenericRepository.GetByIdWithSpec` | Talabat.Repository/Repositories/GenericRepository.cs:42-45 | Null iff the query is empty, and otherwise its first row. A non-null result is an accepted stored row with navigations loaded. |
| `GenericRepository.NeutralSpecGetsAll` | Talabat.Repository/Repositories/GenericRepository.cs:37-40 | A specification with no criteria, ordering, pagination or includes makes `GetAllAsyncWithSpec` equal to `GetAllAsync`. |
| `GenericRepository.IdSpecificationFindsNothing` | Talabat.Repository/Repositories/GenericRepository.cs:42-45 | For every id and database, the id specification yields an empty list, and `GetByIdWithSpec` returns null. |
| `GenericRepository.ListingPriceAscending` | Talabat.Repository/Specifications/ProductWithTypeAndBrandSpecification.cs:36-38 | With sort "PriceAsc", listed prices are non-decreasing. |
| `GenericRepository.ListingPricesOrderedPairwise` | Talabat.Repository/Specifications/ProductWithTypeAndBrandSpecification.cs:36-38 | With sort "PriceAsc", no listed product costs more than any product listed after it on the same page. |
| `GenericRepository.ListingPriceDescending` | Talabat.Repository/Specifications/ProductWithTypeAndBrandSpecification.cs:39-41 | With sort "PriceDesc", listed prices are non-increasing. |
| `GenericRepository.ListingNameAscending` | Talabat.Repository/Specifications/ProductWithTypeAndBrandSpecification.cs:42-44 | With any other non-empty sort token, listed names are in ascending order. |
| `GenericRepository.ListingRowsFilteredAndLoaded` | Talabat.Repository/Specifications/ProductWithTypeAndBrandSpecification.cs:26-31 | Every listed product matches the brand and type filters that are present. When all foreign keys resolve, it has its type and brand loaded. |
| `GenericRepository.ListedRowsMatchFilters` | Talabat.Repository/Specifications/ProductWithTypeAndBrandSpecification.cs:26-31 | Under the listing's criteria and both includes, every listed row passes the criteria. When all foreign keys resolve, its type and brand are loaded. |
| `GenericRepository.ListingWindow` | Talabat.Repository/Specifications/ProductWithTypeAndBrandSpecification.cs:48 | For `PageSize >= 0` and any `PageIndex`, the listing has max(0, min(Take, n - PageSize)) rows, where `Take` is `PageSize * PageIndex` wrapped to 32 bits. When `PageSize <= n` they are the ordered rows from position `PageSize` on, with navigations loaded. |
| `GenericRepository.ListingSecondPageOfTwelve` | Talabat.Repository/Specifications/ProductWithTypeAndBrandSpecification.cs:48 | For 12 products, no filter or sort, page 2 of size 5: the listing is rows 6 to 12 (seven rows), with navigations loaded. |
| `GenericRepository.WhereAllAccepted` | Talabat.Repository/Specifications/SpecificationEvaluator.cs:20-21 | Criteria that accept every row filter nothing out. |
| `Errors.GetDefaultMessage` | Talabat.APIs/Errors/ApiResponse.cs:15-25 | 400 gives "Bad Request", 401 gives "Unauthourized", 404 gives "Not Found" and 500 gives "Internal Server Error". There is a message iff the code is one of these four. |
| `Errors.ResponseMessage` | Talabat.APIs/Errors/ApiResponse.cs:12 | A given message is kept verbatim whatever the code. Otherwise the default is used. The result is non-null iff a message was given or the code has a default. |
| `Errors.ApiResponse.constructor` | Talabat.APIs/Errors/ApiResponse.cs:9-13 | `StatusCode` is the argument, and `Message` follows the rule above. |
| `Errors.NewApiExceptionResponse` | Talabat.APIs/Errors/ApiExceptionResponse.cs:11-14 | Status code and message follow the base rules. `Details` is the given details, null when omitted. |
| `Errors.ExceptionResponseDetailsIndependent` | Talabat.APIs/Errors/ApiExceptionResponse.cs:11-14 | Details do not affect the status code or the message. Code 500 without a message reads "Internal Server Error". |
| `Errors.NewApiValidationErrorResponse` | Talabat.APIs/Errors/ApiValidationErrorResponse.cs:11-14 | The status is 400, the message is "Bad Request" and there are no errors. |
| `Errors.AssigningErrorsKeepsStatus` | Talabat.APIs/Errors/ApiValidationErrorResponse.cs:10 | Assigning `Errors` leaves the status code and the message unchanged. |
| `ImageResolvers.Resolve` | Talabat.APIs/ImageResolvers/ProductPictureUrlResolver.cs:15-20 | A null or empty picture path gives "". Otherwise the result starts with the base URL (null read as "") and ends with the path, with length the sum of theirs. A missing base URL gives the path itself. |

## Left out

- Asynchrony, deferred execution and materialisation: `ToListAsync`, `FindAsync` and `FirstOrDefaultAsync` are modelled as plain functions of the rows.
- Expression trees and their translation to SQL: criteria are predicates, order keys and includes are enumerations.
- The repository is generic over its entity type. Only the product repository is modelled. `GetAllAsync` over the brand and type tables is the same operation on another table.
- Store failures (connectivity, timeouts) are not modelled. They propagate unchanged in the code.
- Prices are decimal in the store and integers here.
- Name ordering follows the database collation. Here it is ordinal order on character codes.
- `SortBy`: stable, but stability and the tie order when both keys are set are not stated. Only the final primary order is.
- The listing's criteria capture the parameters object by reference. The model reads the brand and type filters when the specification is built. The two differ only if the parameters change after construction, which the product controller never does.
- A foreign key that names no row leaves the navigation null. A database query would join and drop such a row. The "loaded" lemmas assume every key resolves.
- Dafny has no private fields: `pageSize` can be assigned directly. The setter-only discipline of the C# backing field is stated as `Valid()`, which the constructor and `SetPageSize` establish and the parameters constructor requires.
- `Take(0)` is modelled as LINQ defines it on sequences: no rows. A SQL Server store translates `Take` into `FETCH NEXT n ROWS ONLY`, and SQL Server requires that count to be at least 1. So the id lookup may fail with a store error there rather than return null. That rejection is not modelled.
- `GetByIdFindsTheRow` assumes unique ids, as the primary key guarantees.
- `ApiExceptionResponse` and `ApiValidationErrorResponse` are modelled as values, not subclasses. They reuse `ResponseMessage`, the base class's message rule.
- The resolver's `destination`, `destMember` and `context` parameters are unused, so they are absent. The configured base URL is a parameter.
- Startup, dependency injection, controllers, middleware, mapping profiles, identity, the Redis basket repository and database seeding are outside the core.
