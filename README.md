# Role/action access table and filtered choice field

This project models two small pieces of the Oppia learning platform in Dafny and proves properties about them.

1. **The role-based access table** (`core/domain/role_services.py`), modelled in `role_services.dfy` (module `RoleServices`).
   - Roles and actions are enumerated datatypes. `ActionName` gives each action its identifier string.
   - The constant tables are kept as they appear in the source: the updatable roles, the viewable roles, the human-readable role names, and the role-to-action lists.
   - `get_all_actions` is a method. It loops over the roles and grows a local set by union. On the first role the table does not know, it returns `Err(RoleDoesNotExist(role))`; the source raises an exception there. At the end it turns the set into a list.
   - The method is specified against `Granted`, a left fold of the union over the role list. Its loop is `AllActionsIn`, written for any table, and `GetAllActions` runs it on the constant table.
   - Lemmas show that `Granted` is exactly the union over the roles. They also prove that it ignores order and repetition, distributes over concatenation and is monotone.
   - These lemmas take the table as a parameter, so they hold for any table, and in particular for the constant one.
   - `get_role_actions` returns the table. Its contract relates the result to `get_all_actions` on a single role.
   - Lemmas also check the constant tables against each other: the admin role lists and the display-name keys are all action-table keys; LEARNER is not updatable; MOBILE_LEARNER is not viewable.
2. **The case-insensitive choice filter** (`FilteredChoicesFieldComponent`), modelled in `filtered_choices_field.dfy` (module `FilteredChoicesField`), using `js_string.dfy` (module `JsString`) for `toLowerCase` and `indexOf`.
   - The component is a class with the fields `choices`, `filteredChoices` and `selection`, plus the other inputs with their declared defaults.
   - A ghost list `selectionChanges` records every value emitted on `selectionChange`.
   - A ghost `lastSearchTerm` gives the object invariant `Valid()`: the shown choices are the choices filtered by the last search term. `ngOnInit` sets that term to "".
   - `FilterBy` is `Array.prototype.filter` for any callback. `Filtered` is `FilterBy` with the callback of `filterChoices`. The proofs show that it keeps exactly the matching choices, at their original positions and in their original order.
   - They also show that the empty term keeps everything, that filtering twice with one term is the same as filtering once, and that narrowing a search (the old lowered term occurs in the new one) can filter the previous result instead of all the choices.

`get_all_actions` returns `list(role_actions)`, a list built from a set; the model returns a duplicate-free `seq` whose order is left open. `get_role_actions` maps each role to a list, and so does the model.

## Model

| member | source | states |
|---|---|---|
| RoleServices.FirstUnknown | core/domain/role_services.py:274-276 | the role reported in the error is the first role of the list that is not a table key; every earlier role is a key |
| RoleServices.GetAllActions | core/domain/role_services.py:261-280 | succeeds iff every role is a table key. On success the result holds exactly the union of the roles' actions, with no duplicates. Otherwise the error names the first unknown role. An empty role list gives an empty list |
| RoleServices.AllActionsIn | core/domain/role_services.py:273-280 | the loop of `get_all_actions` over any table: succeeds iff every role is a key of that table. On success the result is exactly the union of the roles' actions with no duplicates; otherwise the error names the first unknown role |
| RoleServices.ListOf | core/domain/role_services.py:280 | `list(role_actions)`: every element of the set exactly once, in an unspecified order |
| RoleServices.GetRoleActions | core/domain/role_services.py:283-290 | the returned table has the same keys and lists as the internal one. Its keys are exactly the single roles `get_all_actions` accepts. Each list's actions are exactly what `get_all_actions` grants that role |
| RoleServices.GrantedSingle | core/domain/role_services.py:273-280 | a single role is accepted iff it is a key, and it grants exactly the actions of its own list |
| RoleServices.GrantedMembership | core/domain/role_services.py:273-280 | an action is granted iff some role at some position of the list has it: no extra and no missing actions |
| RoleServices.GrantedBySet | core/domain/role_services.py:274-278 | an action is granted iff some role in the set of roles passed has it |
| RoleServices.GrantedAppend | core/domain/role_services.py:274-278 | the roles of two lists together grant the union of what each list grants, e.g. `[r1, r2]` grants the actions of `[r1]` plus those of `[r2]` |
| RoleServices.GrantedIgnoresOrderAndRepetition | core/domain/role_services.py:274-278 | two role lists with the same set of roles grant the same actions, whatever the order or repetitions |
| RoleServices.GrantedMonotonic | core/domain/role_services.py:273-280 | if the roles of one list are among those of a valid list, the first list is valid too and grants a subset of the actions |
| RoleServices.FailureIgnoresOrder | core/domain/role_services.py:274-276 | whether the call fails depends only on the set of roles passed |
| RoleServices.MetadataRolesAreTableKeys | core/domain/role_services.py:109-258 | every updatable role and every viewable role is an action-table key, and the display-name table has exactly the action table's keys |
| RoleServices.AdminListsExclusions | core/domain/role_services.py:105-137 | LEARNER is not an updatable role, MOBILE_LEARNER is not a viewable role, and neither list repeats a role |
| JsString.LowerChar | core/templates/components/filter-fields/filtered-choices-field/filtered-choices-field.component.ts:46 | lowering leaves no ASCII upper-case letter; it leaves other characters alone and maps `A`..`Z` to `a`..`z` |
| JsString.ToLowerCase | core/templates/components/filter-fields/filtered-choices-field/filtered-choices-field.component.ts:46 | the lowered string has the same length, is lowered character by character, and holds no upper-case letter |
| JsString.ToLowerCaseIdempotent | core/templates/components/filter-fields/filtered-choices-field/filtered-choices-field.component.ts:46 | lowering an already lowered string changes nothing |
| JsString.IndexFrom | core/templates/components/filter-fields/filtered-choices-field/filtered-choices-field.component.ts:46 | the search from a position returns the first occurrence at or after it, or -1 when there is none |
| JsString.IndexOf | core/templates/components/filter-fields/filtered-choices-field/filtered-choices-field.component.ts:46 | `indexOf` is -1 iff the needle does not occur. Otherwise it is the position of the first occurrence |
| JsString.IndexOfEmpty | core/templates/components/filter-fields/filtered-choices-field/filtered-choices-field.component.ts:46 | `indexOf("")` is 0 |
| JsString.OccursAtTransitive | core/templates/components/filter-fields/filtered-choices-field/filtered-choices-field.component.ts:46 | an occurrence inside an occurrence is an occurrence in the whole string, at the summed position |
| JsString.ContainsTransitive | core/templates/components/filter-fields/filtered-choices-field/filtered-choices-field.component.ts:46 | "is a substring of" is transitive |
| FilteredChoicesField.KeptPositionsExact | core/templates/components/filter-fields/filtered-choices-field/filtered-choices-field.component.ts:45-46 | every recorded position is an index of the list, and position k is recorded iff the callback keeps element k |
| FilteredChoicesField.KeptPositionsIncreasing | core/templates/components/filter-fields/filtered-choices-field/filtered-choices-field.component.ts:45 | the recorded positions are strictly increasing: `filter` visits the elements in order |
| FilteredChoicesField.FilterByAtPositions | core/templates/components/filter-fields/filtered-choices-field/filtered-choices-field.component.ts:45-46 | the filtered list has one entry per recorded position, and entry k is the element at the k-th recorded position |
| FilteredChoicesField.FilterByMembership | core/templates/components/filter-fields/filtered-choices-field/filtered-choices-field.component.ts:45-46 | a string is in the filtered list iff it is in the input and the callback keeps it |
| FilteredChoicesField.FilterByAppend | core/templates/components/filter-fields/filtered-choices-field/filtered-choices-field.component.ts:45-46 | filtering a concatenation is the concatenation of the filtered parts |
| FilteredChoicesField.FilterByKeepingAll | core/templates/components/filter-fields/filtered-choices-field/filtered-choices-field.component.ts:45-46 | a callback that keeps every element leaves the list unchanged, order included |
| FilteredChoicesField.FilterByNarrowing | core/templates/components/filter-fields/filtered-choices-field/filtered-choices-field.component.ts:44-47 | filtering by a weaker callback and then by a stronger one equals filtering by the stronger one alone |
| FilteredChoicesField.MatchesIffContains | core/templates/components/filter-fields/filtered-choices-field/filtered-choices-field.component.ts:45-46 | a choice passes the filter iff the lowered term is a substring of the lowered choice |
| FilteredChoicesField.FilteredPositions | core/templates/components/filter-fields/filtered-choices-field/filtered-choices-field.component.ts:44-47 | the filtered list is the choices at strictly increasing positions, and a position is kept iff its choice matches |
| FilteredChoicesField.FilteredIsSubsequence | core/templates/components/filter-fields/filtered-choices-field/filtered-choices-field.component.ts:44-47 | the filtered list is an order-preserving sub-list of the choices |
| FilteredChoicesField.FilteredMembership | core/templates/components/filter-fields/filtered-choices-field/filtered-choices-field.component.ts:45-46 | a string is in the filtered list iff it is a choice and it matches the term |
| FilteredChoicesField.FilteredByEmptyTerm | core/templates/components/filter-fields/filtered-choices-field/filtered-choices-field.component.ts:45-46 | the empty term keeps every choice, in order |
| FilteredChoicesField.FilteredNarrowing | core/templates/components/filter-fields/filtered-choices-field/filtered-choices-field.component.ts:44-47 | if the old lowered term occurs in the new lowered term, filtering the shown list by the new term gives the same as filtering all the choices |
| FilteredChoicesField.FilteredIdempotent | core/templates/components/filter-fields/filtered-choices-field/filtered-choices-field.component.ts:44-47 | filtering the filtered list again with the same term changes nothing |
| FilteredChoicesField.FilteredChoicesFieldComponent.constructor | core/templates/components/filter-fields/filtered-choices-field/filtered-choices-field.component.ts:29-38 | the bound inputs are stored. The other inputs take their declared defaults: "search", searchable, "No matches found". Nothing has been emitted yet |
| FilteredChoicesField.FilteredChoicesFieldComponent.NgOnInit | core/templates/components/filter-fields/filtered-choices-field/filtered-choices-field.component.ts:40-42 | the shown choices equal the choices, which is the empty search (the invariant holds with term ""). Only `filteredChoices` and the ghost term may change |
| FilteredChoicesField.FilteredChoicesFieldComponent.FilterChoices | core/templates/components/filter-fields/filtered-choices-field/filtered-choices-field.component.ts:44-47 | the shown choices become the filtered choices. They are an ordered sub-list of `choices`, holding exactly the matching choices, and all choices for "". `choices` and `selection` are not in the frame, so they are unchanged |
| FilteredChoicesField.FilteredChoicesFieldComponent.UpdateSelection | core/templates/components/filter-fields/filtered-choices-field/filtered-choices-field.component.ts:49-52 | the selection becomes the argument and exactly one event carrying it is emitted. `choices` and `filteredChoices` are not in the frame, and the invariant is kept |

## Left out

- `log_role_query` (core/domain/role_services.py:293-308) is not modelled. It depends on the wall clock, `random.randint` and the audit datastore model.
- The `feconf.ROLE_ID_*` strings are not part of this model. Roles are distinct enumerated constants. `Learner` stands for the LEARNER role named in the note on the updatable roles, and `Unlisted(id)` for any other identifier. `Learner` appears in no table, so `Learner !in UpdatableRoles` in `AdminListsExclusions` holds by construction: the model cannot test that note against the real identifier values.
- The model does not prove that the 61 action identifier strings are pairwise distinct. That distinctness is assumed by representing actions as an enumeration; `ActionName` only records the literal values.
- The error is the value `RoleDoesNotExist(role)`. The text of the exception message, `'Role %s does not exist.'`, is not modelled, because role strings are opaque.
- `copy.deepcopy` aliasing is not modelled. The table is an immutable map, so the copy is a value equal to the table, and no caller can change the table through it.
- JavaScript `toLowerCase` is modelled for ASCII letters only. Unicode and locale-specific case mapping is left out.
- `JsString.ToLowerCase`: its contract covers ASCII lower-casing only, which is weaker than the full Unicode mapping JavaScript performs.
- Angular's `EventEmitter` is a ghost list of emitted values. Subscribers and the template are not modelled.
- Angular input binding is not modelled: in the model `choices` changes only through the constructor.
- Before `ngOnInit` runs, `filteredChoices` is undefined in the source; the model uses the empty list.
- After `ngOnInit`, `filteredChoices` and `choices` share one array object in the source. The model copies the value. No method changes an array in place, so the difference is not visible.
- `isSearchable` is an optional input in the source; the model gives it a plain boolean, defaulting to true.
