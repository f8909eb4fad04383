# Aircraft-record contract: a Dafny model

This project models the core of `MyAeroContract`, a Hyperledger Fabric chaincode contract that keeps
aircraft maintenance records (`demo-aero/src/my-aero-contract.ts`). The model covers three parts:

- **The role gate (`hasRole`).** A caller holds a role only when its `role` certificate attribute
  claims that role and its organisation is bound to it: `Org1MSP` to `Maintenance`, `Org2MSP` to
  `Operator`. Module `Access` models it as the loop the source runs (`HasRole`). That loop is proved
  equal to an existential specification (`Authorized`), and lemmas give the truth table.
- **The guarded record store.** Module `AeroContract` holds class `AeroLedger`. Its two map fields
  stand for the world state and the `maintenanceRecord` private collection. `CreateMyAero`,
  `UpdateMyAero` and `DeleteMyAero` check the role first, then whether the record exists, and only
  then write. A rejected call changes neither map. The private collection is written only by
  create, only when the transient map carries `amr_desc`, and delete never removes it.
  `ReadMyAero` is read-only. It swallows a failing private read.
- **The result-draining loop** shared by `queryAllAeros`, `queryByType`, `getHistoryByKey` and
  `queryMinYear`. Module `Cursor` models it once, as `Drain`, over an iterator object
  (`ResultsIterator`). `Drain` is proved to collect exactly `Drained` of the iterator's entries and
  to close the iterator once. Lemmas prove what `Drained` is: the entries with non-empty text, in
  iterator order, each turned into parsed JSON or, when parsing fails, its raw text. Module
  `Queries` holds the four transactions. Each one sends its request to the store and drains the
  answer.

Module `Scenarios` writes out call sequences against a fresh ledger and proves what each returns:
- read after create;
- the private entry left behind by delete;
- spoofed callers;
- a second create on the same key.

Fabric itself is taken as input:
- The caller is an `Identity` made of its MSP id and its optional `role` attribute.
- The transient map is a `map<string, Bytes>`.
- Serialisation is a pair of functions (`encode`, `decode`). `decode(encode(a)) == Some(a)` and
  `encode(a)` is never empty (`Codec`).
- `Buffer.toString()` is a function `toText`.
- What the store yields for a query is a function from the request to a sequence of entries.
- Whether the private read throws is a boolean parameter of `ReadMyAero`.
- Whether the store's iterators deliver the last entry together with `done` or in a step of its own is a boolean parameter of the iterator (`lastWithDone`). The loop handles both.

The model follows these details of the code:
- A missing private entry reads as empty bytes, as a missing world-state key does. So a readable
  but empty private collection gives `amrDesc == Some(toText([]))`, not an absent field.
- The `amr_desc` test is JavaScript truthiness of a `Buffer`, which holds for any present value,
  even an empty one. The model therefore tests whether the key is present.
- Line 131 selects on `type`, while records are stored with `amr_type`. The model keeps the
  selector as written.
- `queryMinYear` drops the pagination metadata (line 190), so no bookmark is returned.

## Model

| member | source | states |
|---|---|---|
| `Access.HasRole` | demo-aero/src/my-aero-contract.ts:216-225 | the loop returns true exactly when some required role is both the caller's `role` attribute and bound to the caller's MSP (`Authorized`); an empty role list yields false |
| `Access.AuthorizedByOwnClaim` | demo-aero/src/my-aero-contract.ts:218-222 | access holds iff the caller's own claimed role is among the required roles and bound to its organisation |
| `Access.NoRolesNoAccess` | demo-aero/src/my-aero-contract.ts:218-224 | an empty list of required roles grants nothing |
| `Access.SpoofedClaimDenied` | demo-aero/src/my-aero-contract.ts:219-221 | claiming a role the organisation is not bound to grants nothing, whatever is required |
| `Access.UnboundOrganisationDenied` | demo-aero/src/my-aero-contract.ts:220-221 | a caller from an organisation other than Org1MSP and Org2MSP is always denied |
| `Access.NoClaimDenied` | demo-aero/src/my-aero-contract.ts:219 | a caller without a `role` attribute is always denied |
| `AeroContract.WriteAccessTable` | demo-aero/src/my-aero-contract.ts:20-23 | create (`['Maintenance']`, line 20) and update (the same list, line 66) admit exactly an Org1MSP caller claiming Maintenance |
| `AeroContract.DeleteAccessTable` | demo-aero/src/my-aero-contract.ts:87-90 | delete (`['Maintenance', 'Operator']`) admits exactly Org1MSP claiming Maintenance or Org2MSP claiming Operator |
| `AeroContract.CrossOrganisationClaimsDenied` | demo-aero/src/my-aero-contract.ts:219-221 | Org2MSP claiming Maintenance cannot create or update; Org1MSP claiming Operator cannot delete; Operator cannot create |
| `AeroContract.AeroLedger.MyAeroExists` | demo-aero/src/my-aero-contract.ts:13-16 | true iff the world state holds a non-empty value under the key |
| `AeroContract.AeroLedger.CreateMyAero` | demo-aero/src/my-aero-contract.ts:19-43 | role failure first, then AlreadyExists, each with both maps unchanged; otherwise only the key is written with the serialised record, which then exists and decodes back; the private collection gains the key iff the transient map has `amr_desc`, and nothing else in it changes |
| `AeroContract.AeroLedger.ReadMyAero` | demo-aero/src/my-aero-contract.ts:47-62 | missing record: DoesNotExist; unparsable bytes: Unparsable; otherwise the parsed record, with `amrDesc` set to the private entry's text when the private read succeeds and left as parsed when it throws; no state changes |
| `AeroContract.AeroLedger.UpdateMyAero` | demo-aero/src/my-aero-contract.ts:65-83 | role failure first, then DoesNotExist, each leaving the world unchanged; otherwise only the key is fully overwritten; the private collection is outside its frame |
| `AeroContract.AeroLedger.DeleteMyAero` | demo-aero/src/my-aero-contract.ts:86-97 | role failure first (Maintenance or Operator), then DoesNotExist, each leaving the world unchanged; otherwise only the key is removed and no longer exists; the private collection is outside its frame |
| `Cursor.ResultsIterator.constructor` | demo-aero/src/my-aero-contract.ts:103 | a fresh iterator over the store's answer, in either of the two ways of reporting the last entry, nothing handed out, never closed |
| `Cursor.ResultsIterator.Next` | demo-aero/src/my-aero-contract.ts:106 | hands out the next entry, flagged `done` when it is the last one and the store's iterators report it that way (`lastWithDone`), otherwise not; once all are out, no value with `done` true |
| `Cursor.ResultsIterator.Close` | demo-aero/src/my-aero-contract.ts:122 | counts one more close |
| `Cursor.Collect` | demo-aero/src/my-aero-contract.ts:110-118 | the row for one entry carries the entry's key exactly when keyed; its record is the parsed JSON of the entry's text when parsing succeeds and that raw text when parsing throws |
| `Cursor.Drain` | demo-aero/src/my-aero-contract.ts:105-126 | the loop reads the iterator to its end, whether the last entry arrives with `done` or before it, returns `Drained` of the entries it had not yet handed out, and closes it exactly once |
| `Cursor.Drained` | demo-aero/src/my-aero-contract.ts:107-119 | one row per entry with non-empty text; parse failures drop nothing |
| `Cursor.CollectedIsDrained` | demo-aero/src/my-aero-contract.ts:105-119 | accumulating rows the loop's way over a run of entries appends exactly `Drained` of that run |
| `Cursor.KeptMembers` | demo-aero/src/my-aero-contract.ts:107 | an entry is kept iff it came from the iterator and its value's text is non-empty |
| `Cursor.DrainedIsKeptMapped` | demo-aero/src/my-aero-contract.ts:107-118 | the i-th row is the row of the i-th kept entry: the same entries, in iterator order |
| `Cursor.DrainedAppend` | demo-aero/src/my-aero-contract.ts:105-119 | draining two runs one after the other yields the first run's rows before the second's |
| `Cursor.NoEntryDropped` | demo-aero/src/my-aero-contract.ts:112-118 | every entry with non-empty text yields a row: its parsed JSON, or its raw text when parsing fails |
| `Cursor.RowKeys` | demo-aero/src/my-aero-contract.ts:174 | keyed rows carry their entry's key; history rows carry none |
| `Queries.QueryAllAeros` | demo-aero/src/my-aero-contract.ts:100-127 | the keyed drain of what the store yields for the range "000" to "999" |
| `Queries.QueryByType` | demo-aero/src/my-aero-contract.ts:130-157 | the keyed drain of what the store yields for the selector `type` equal to the argument |
| `Queries.GetHistoryByKey` | demo-aero/src/my-aero-contract.ts:159-183 | the unkeyed drain of the key's history; no row carries a key |
| `Queries.QueryMinYear` | demo-aero/src/my-aero-contract.ts:187-214 | the keyed drain of the page the store yields for `year` at least `min`, with the given size and bookmark |
| `Scenarios.ReadAfterCreate` | demo-aero/src/my-aero-contract.ts:19-62 | create on a free key succeeds, and a read returns the created fields with `amrDesc` from the transient `amr_desc`, else from the private entry already there |
| `Scenarios.DeleteOrphansPrivateEntry` | demo-aero/src/my-aero-contract.ts:38-97 | after create with a secret and then delete, the record no longer exists; a new create without a secret reads back the deleted record's secret |
| `Scenarios.SpoofedCallersChangeNothing` | demo-aero/src/my-aero-contract.ts:20-90 | Org2MSP claiming Maintenance cannot create or update, Org1MSP claiming Operator cannot delete, and both maps stay as they were |
| `Scenarios.CreateTwice` | demo-aero/src/my-aero-contract.ts:24-27 | a second create on the same key fails with AlreadyExists and the first record stays stored |

## Left out

- Fabric runtime plumbing is not modelled: `Context`, `ctx.stub`, `clientIdentity`, the decorators, and async/await. They become explicit parameters and map fields.
- The commented-out event emission (lines 36-37) is not modelled.
- JSON is not modelled. `JSON.stringify`/`JSON.parse` and the `MyAero` field layout (`./my-aero` is not part of this model) are abstract: `encode`, `decode` and, in the queries, `parse`.
- `year` (lines 19 and 65) and `queryMinYear`'s `min` and `size` (line 187) are JavaScript `number`s. The model uses unbounded integers, so floating point is not modelled.
- The final `JSON.stringify(allResults)` of each query is not modelled. The queries return the row sequence itself.
- Logging (`console.log`, `console.info`) is not modelled, because it has no effect on results.
- Range order and end-exclusivity of `getStateByRange('000', '999')` are not modelled. Nor is CouchDB selector evaluation, pagination, or the order of history entries. These belong to the store. What it yields for each request is an input, and it is not tied to the world-state map.
- Queries.QueryMinYear does not return the bookmark or any other pagination metadata, because the source drops them.
- The loop's error paths are not modelled. An `iterator.next()` that throws is out of scope. There is no `try`/`finally`, so no claim is made that the iterator is closed in that case.
- Failures of the backing store (`getState`, `putState` and so on throwing) are not modelled.
- Whether writing empty bytes deletes a key is the store's semantics, and it is not modelled. The contract itself writes empty bytes only to the private collection, when `amr_desc` is present but empty.
- Key validation by the runtime (an empty key, for example) is not modelled.
