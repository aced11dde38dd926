# Ressarcimento REST controller — a Dafny model

This project models `RessarcimentoResource`, the Spring REST controller of the caixaudv
application that serves reimbursement records (Ressarcimento) under `/api/ressarcimentos`.
It has five endpoints: create, update, list, get by id and delete. Each endpoint is a short
decision table: check the record's id, check the caller's permission level
(`NivelPermissao`), then write to the repository.

Layout:

- `domain.dfy` (module `Domain`): accounts (`Conta`), permission levels, records, and the
  `Outcome` an endpoint answers. `Created`, `Ok`, `OkList`, `OkDeleted` and `NotFound` are
  the HTTP responses. `BadRequest(key)` stands for `BadRequestAlertException` with its error
  key, and `NotAuthorized` for `UserNotAuthorizedException`.
- `decimal.dfy` (module `Decimal`): the decimal rendering of an id as `Long.toString` writes
  it, with its parser and a round-trip lemma. It is used for the `Location` header.
- `repository.dfy` (module `Repository`): the repository as a finite map from id to record,
  and `findAll`.
- `resource.dfy` (module `Resource`): the endpoint rules as functions over the store.
  `Create`, `Update` and `Delete` return a `Step`, the answer together with the new store;
  the two read-only rules, `GetAll` and `Get`, return only the answer. Then the class `RessarcimentoResource`, which holds
  the store as a mutable field; its methods perform the rules in place.

The environment enters the model as follows:

- The caller's account, from `contaRepository.findByUserIsCurrentUser()`, is a parameter of
  type `Conta`. That type has no null value, so the `NullPointerException` path is excluded.
- `UserAccountPermissionChecker.checkPermissao` is a function-typed value, fixed when the
  controller is constructed. It is never interpreted: every property holds whatever it answers.
- The id that `save` assigns to a new record is a parameter `freshId`. It must not already be
  in the store.

## Model

| member | source | states |
|---|---|---|
| `Resource.Create` | src/main/java/org/udv/nrc/caixaudv/web/rest/RessarcimentoResource.java:55-69 | A record that already has an id gets `BadRequest("idexists")` and the store is unchanged, whatever the caller or the checker. Otherwise a caller that `checkPermissao(conta, [ADMIN, OPERADOR])` refuses gets `NotAuthorized` and the store is unchanged. Creation happens exactly when neither applies. Then the answer is the record with the repository's fresh id, its location is `/api/ressarcimentos/` followed by that id, the store gains exactly that one entry, and every old entry is kept. The store invariant is preserved. |
| `Resource.Update` | src/main/java/org/udv/nrc/caixaudv/web/rest/RessarcimentoResource.java:80-94 | A record without id gets `BadRequest("idnull")` for every caller, so this check comes before the permission check. With an id, any caller that is not ADMIN (OPERADOR included) gets `NotAuthorized` and the store is unchanged. Success happens exactly for ADMIN: the answer is the record, it is stored under its id, and every other entry is unchanged. |
| `Resource.GetAll` | src/main/java/org/udv/nrc/caixaudv/web/rest/RessarcimentoResource.java:101-110 | The answer is always a list holding the whole store: one entry per stored id, every stored record included, listed by ascending id. |
| `Resource.GetAllIgnoresCaller` | src/main/java/org/udv/nrc/caixaudv/web/rest/RessarcimentoResource.java:104-109 | The list is the same for any two callers and any two permission checkers. |
| `Resource.Get` | src/main/java/org/udv/nrc/caixaudv/web/rest/RessarcimentoResource.java:118-131 | An absent id gives `NotFound` for every caller. A present record is returned (`Ok` with that record) exactly when the caller owns it or has level ADMIN or OPERADOR. Otherwise the answer is `NotAuthorized`. No other answer occurs. |
| `Resource.Delete` | src/main/java/org/udv/nrc/caixaudv/web/rest/RessarcimentoResource.java:139-148 | A non-ADMIN caller gets `NotAuthorized` and the store is unchanged. For ADMIN the answer is `OkDeleted`, exactly that id is removed, and every remaining entry is unchanged. The store invariant is preserved. |
| `Resource.CreateThenGet` | src/main/java/org/udv/nrc/caixaudv/web/rest/RessarcimentoResource.java:65-68 | Right after a successful create, reading the new id gives the created record to its owner and to ADMIN and OPERADOR, and `NotAuthorized` to everyone else. It is never `NotFound`. |
| `Resource.UpdateThenGet` | src/main/java/org/udv/nrc/caixaudv/web/rest/RessarcimentoResource.java:90-93 | After ADMIN updates a record, ADMIN reads exactly that record under its id. |
| `Resource.DeleteThenGet` | src/main/java/org/udv/nrc/caixaudv/web/rest/RessarcimentoResource.java:146-147 | After ADMIN deletes an id, every caller gets `NotFound` for it, and every other id answers as it did before. |
| `Resource.CanCRAllLevels` | src/main/java/org/udv/nrc/caixaudv/web/rest/RessarcimentoResource.java:41-42 | The levels allowed to create are the list ADMIN then OPERADOR: a level is in it exactly when it is ADMIN or OPERADOR. |
| `Resource.Location` | src/main/java/org/udv/nrc/caixaudv/web/rest/RessarcimentoResource.java:66 | Every location starts with `/api/ressarcimentos/`. |
| `Decimal.IdToString` | src/main/java/org/udv/nrc/caixaudv/web/rest/RessarcimentoResource.java:66 | The text of an id is non-empty and starts with a minus sign exactly when the id is negative; `ParseIdToString` shows it is the id's decimal numeral. |
| `Resource.LocationIdentifiesRecord` | src/main/java/org/udv/nrc/caixaudv/web/rest/RessarcimentoResource.java:66 | Distinct ids get distinct locations. |
| `Decimal.ParseIdToString` | src/main/java/org/udv/nrc/caixaudv/web/rest/RessarcimentoResource.java:66 | The id written into the location is a well-formed numeral that reads back as the same id. |
| `Repository.FindAll` | src/main/java/org/udv/nrc/caixaudv/web/rest/RessarcimentoResource.java:109 | `findAll` lists as many records as the store holds. Entry i is the record stored under the i-th smallest id, and every stored record appears. |
| `Repository.SortedKeys` | src/main/java/org/udv/nrc/caixaudv/web/rest/RessarcimentoResource.java:109 | The ids of the store, each exactly once, strictly ascending. This fixes the order in which `findAll` lists the records. |
| `Repository.FindAllSortedById` | src/main/java/org/udv/nrc/caixaudv/web/rest/RessarcimentoResource.java:109 | In a store where every record carries its own id, the listed ids strictly ascend. |
| `Resource.OwnedBy` | src/main/java/org/udv/nrc/caixaudv/web/rest/RessarcimentoResource.java:106-107 | The filter of the discarded stream keeps exactly the records whose account equals the caller's. Each kept record occurs as often as in the input; no other record occurs. |
| `Resource.OwnedBySingle` | src/main/java/org/udv/nrc/caixaudv/web/rest/RessarcimentoResource.java:107 | A single record passes the filter exactly when its account equals the caller's. |
| `Resource.OwnedByAppend` | src/main/java/org/udv/nrc/caixaudv/web/rest/RessarcimentoResource.java:106-107 | The filter keeps the order: filtering a concatenation gives the filtered parts in order. Together with `OwnedBySingle` this fixes the filtered list completely. |
| `Resource.GetAllShowsForeignRecords` | src/main/java/org/udv/nrc/caixaudv/web/rest/RessarcimentoResource.java:104-109 | As written, a caller refused by `checkPermissao` receives records of other accounts. The intended list withholds them. |
| `Resource.GetAllShowsForeignRecordsExample` | src/main/java/org/udv/nrc/caixaudv/web/rest/RessarcimentoResource.java:104-109 | A concrete case. An account of level Other, refused by the checker, lists the one record of an OPERADOR account. The intended list is empty. |
| `Resource.GetAllOwnOnly` | src/main/java/org/udv/nrc/caixaudv/web/rest/RessarcimentoResource.java:104-109 | The corrected list. It lists only stored records. A permitted caller gets exactly what `findAll` lists. A refused caller gets every record of its own account and no other, each as often as `findAll` lists it, in `findAll`'s order. |
| `Resource.RessarcimentoResource.constructor` | src/main/java/org/udv/nrc/caixaudv/web/rest/RessarcimentoResource.java:44-46 | The controller starts over the given repository contents and permission checker. |
| `Resource.RessarcimentoResource.CreateRessarcimento` | src/main/java/org/udv/nrc/caixaudv/web/rest/RessarcimentoResource.java:55-69 | Answers and updates the store in place exactly as `Create` says, and keeps the store invariant. |
| `Resource.RessarcimentoResource.UpdateRessarcimento` | src/main/java/org/udv/nrc/caixaudv/web/rest/RessarcimentoResource.java:80-94 | Answers and updates the store in place exactly as `Update` says. |
| `Resource.RessarcimentoResource.GetAllRessarcimentos` | src/main/java/org/udv/nrc/caixaudv/web/rest/RessarcimentoResource.java:101-110 | Answers as `GetAll` says. It has no `modifies` clause, so it changes nothing. |
| `Resource.RessarcimentoResource.GetRessarcimento` | src/main/java/org/udv/nrc/caixaudv/web/rest/RessarcimentoResource.java:118-131 | Answers as `Get` says, and changes nothing. |
| `Resource.RessarcimentoResource.DeleteRessarcimento` | src/main/java/org/udv/nrc/caixaudv/web/rest/RessarcimentoResource.java:139-148 | Answers and updates the store in place exactly as `Delete` says. |

## Findings

| source | as written | input that shows it | evidently intended | confidence | as-written member | corrected member |
|---|---|---|---|---|---|---|
| src/main/java/org/udv/nrc/caixaudv/web/rest/RessarcimentoResource.java:104-109 | For a caller that `checkPermissao` refuses, the stream filtered to the caller's account is built and thrown away. The endpoint then returns `findAll()` to every caller. | Store `{7: record of account (1, OPERADOR)}`. Caller `(2, Other)`, refused by the checker. The answer lists the other account's record. | A refused caller receives only its own account's records. | high; not executed | `Resource.GetAllShowsForeignRecordsExample` | `Resource.GetAllOwnOnly` |

The class `RessarcimentoResource` keeps the list endpoint as written, because it models the
deployed controller. `GetAllOwnOnly` is the corrected endpoint beside it. It is proved to
list only stored records; to give permitted callers exactly the list of `findAll`; and to give
everyone else `findAll`'s list filtered to the caller's account, in the same order, with each
of the caller's records as often as `findAll` lists it and no other record. `GetAllShowsForeignRecords` proves, for all inputs, that the two disagree whenever the
checker refuses the caller and the store holds a record of another account.

## Left out

- HTTP and framework plumbing is not modelled: `ResponseEntity` headers, `HeaderUtil` alert
  headers, `URISyntaxException`, slf4j logging, and `@Valid` bean validation of the body.
- Only the error key of `BadRequestAlertException` is kept. The messages and entity name of
  both exceptions are left out. Neither key nor message of `UserNotAuthorizedException` is kept.
- The body of `UserAccountPermissionChecker.checkPermissao` is not part of this model. It is
  a function-typed value that is never interpreted.
- `ContaRepository.findByUserIsCurrentUser` is not part of this model; its result is a
  parameter. The path where it returns null is excluded by the parameter's type. In the
  source that path throws `NullPointerException` in update, delete and, for a non-owner,
  get by id.
- A caller account whose permission level is null is not modelled, because `NivelPermissao`
  has no null value here. In the source, reading that level throws `NullPointerException` in
  update and delete, and in get by id when the caller does not own the record.
- `Conta.equals` is not part of this model. Accounts are compared as values.
- A stored record whose account is null is not modelled. In the source, get by id would
  throw `NullPointerException` on such a record.
- JPA persistence semantics beyond a map are not modelled. The id that `save` assigns is a
  parameter. An update of an id that is not stored inserts it under that id. A delete of an
  absent id changes nothing; whether Spring throws on it is left out.
- `findAll` has no specified order in the source. The model lists records by ascending id.
- Ids are Java `Long`, but the model uses unbounded integers: the 64-bit range of
  generated ids is not modelled.
- The lazily built, discarded filter in the list endpoint has no effect and is not performed.
  Its predicate is modelled as `OwnedBy` for the finding.
- The level enumeration is not part of this model. Every level other than ADMIN and OPERADOR
  is represented by `Other`.
