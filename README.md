# Match-craft admin: permission tree, team rosters and event paging in Dafny

This project models the client-side logic of the match-craft administration front end. It covers three pages.

- **Permissions page** (`permissions.component.ts`). A role holds Modules, a Module holds SubModules, and a SubModule holds ChildModules. Every node has an `allowed` flag. The page edits this three-level tree in a modal:
  - a module checkbox cascades down to everything under it;
  - a sub-module checkbox cascades down to its children, then recomputes the module as the AND of its sub-modules;
  - a child checkbox recomputes its sub-module as the AND of its children, then the module.

  The page also counts the allowed nodes of each role and builds the edit tree from a role, either keeping its flags (view/edit) or clearing them (add). It serialises the create payload with the role name upper-cased, builds the reduced module-level update payload, and filters the role table by a case-insensitive search.
- **Team page** (`team.component.ts`). Two rosters are each held between 1 and 11 players by the add/remove buttons. The page fills in team names and codes from the dropdown and writes the "A vs B" title. After a submission it resets the form.
- **Events page** (`events.component.ts`). It keeps the server-side pagination bookkeeping: total pages, page numbers, page bounds and the request offset. It also runs the delete-confirmation modal.

Layout:
- `options.dfy`: `Option`, for fields and arrays the backend may leave out.
- `text.dfy`: ASCII `toLowerCase`/`toUpperCase`, `trim`, blankness and `includes`.
- `permission_tree.dfy`: module `PermissionTree`. It holds the backend records, the edit tree, the toggle rules as functions, and the consistency and idempotence lemmas. It also holds the permission count, tree construction, payloads and search.
- `permissions_component.dfy`: module `PermissionsComponent`. It holds the component's loops (`ToggleAllChildren`, `ToggleAllSubModules`, `CalculatePermissionCount`), each proved equal to its specification function. It also holds class `PermissionsEditor`, whose fields are the component's state. Its methods update those fields and state their effect through the `PermissionTree` functions.
- `team.dfy`: module `Team` with class `TeamForm`, the roster functions and the roster-bounds lemmas.
- `events.dfy`: module `Events` with class `EventsList`, ceiling division, page numbers and the request payload.

Angular form groups and form arrays are plain values here. The form tree is a `seq<ModuleNode>` field that the handlers reassign. Rosters are `seq<Player>` fields. A sub-module's own `subModules` array (its children) is named `children` in the edit tree.

Points where the code's behaviour is narrower than one might expect:
- The intended invariant is that a module is allowed iff all its sub-modules are. The code does not keep it for a module with no sub-modules: toggling such a module off leaves it off, although the AND over an empty array is true. So `Consistent` constrains only nodes that have children, and the handlers restore that (`*RestoresConsistency`).
- `openAddRoleModal` tests only whether the first table row's `modules` is present. An empty `modules` array is present in JavaScript, so it gives an empty tree, not the default "Cricket" module.
- `onChildToggle` ignores its child index.

## Model

| member | source | states |
|---|---|---|
| `PermissionTree.EveryChildAllowed` | src/app/pages/permissions/permissions.component.ts:315-317 | `.every` over the children: true exactly when every child is allowed, so true for no children |
| `PermissionTree.EverySubModuleAllowed` | src/app/pages/permissions/permissions.component.ts:346-349 | true exactly when every sub-module is allowed, so true for no sub-modules |
| `PermissionTree.CascadeChildren` | src/app/pages/permissions/permissions.component.ts:336-342 | every child gets the given flag; count, ids and names unchanged |
| `PermissionTree.CascadeSubModule` | src/app/pages/permissions/permissions.component.ts:327-333 | a sub-module and all its children get the flag; its shape is kept |
| `PermissionTree.CascadeSubModules` | src/app/pages/permissions/permissions.component.ts:326-334 | every sub-module and every child below them get the flag; shape kept |
| `PermissionTree.ModuleToggled` | src/app/pages/permissions/permissions.component.ts:285-291 | every sub-module and child under module i equals module i's flag; module i's own flag and shape and all other modules unchanged |
| `PermissionTree.SubModuleToggled` | src/app/pages/permissions/permissions.component.ts:293-303 | sub-module j and its children carry j's flag; module i is allowed iff all its sub-modules are; siblings, other modules and the shape unchanged |
| `PermissionTree.ChildToggled` | src/app/pages/permissions/permissions.component.ts:305-324 | sub-module j is allowed iff all its children are (vacuously true); module i iff all its sub-modules are; no child flag, sibling or other module changes |
| `PermissionTree.ModuleToggleRestoresConsistency` | src/app/pages/permissions/permissions.component.ts:285-291 | whatever the click did to module i, the tree is consistent after the handler if the other modules were |
| `PermissionTree.SubModuleToggleRestoresConsistency` | src/app/pages/permissions/permissions.component.ts:293-303 | whatever the click did to sub-module j, the tree is consistent after the handler if everything outside j was |
| `PermissionTree.ChildToggleRestoresConsistency` | src/app/pages/permissions/permissions.component.ts:305-324 | whatever the click did to a child of j, the tree is consistent after the handler if everything outside j was |
| `PermissionTree.ModuleToggleIdempotent` | src/app/pages/permissions/permissions.component.ts:285-291 | running onModuleToggle twice gives the same tree as once |
| `PermissionTree.SubModuleToggleIdempotent` | src/app/pages/permissions/permissions.component.ts:293-303 | running onSubModuleToggle twice gives the same tree as once |
| `PermissionTree.ChildToggleIdempotent` | src/app/pages/permissions/permissions.component.ts:305-324 | running onChildToggle twice gives the same tree as once |
| `PermissionTree.ChildrenAllowedCount` | src/app/pages/permissions/permissions.component.ts:160-162 | the allowed children are counted, never more than there are children |
| `PermissionTree.PermissionCountBounded` | src/app/pages/permissions/permissions.component.ts:152-166 | the permission count is 0 for a missing module list and never exceeds the number of nodes on all three levels |
| `PermissionTree.AllAllowedCountIsNodeCount` | src/app/pages/permissions/permissions.component.ts:155-165 | when every node on every level is allowed, the count equals the number of nodes: each level counts once per node |
| `PermissionTree.CreateChildGroup` | src/app/pages/permissions/permissions.component.ts:274-283 | a child node keeps the record's name, its id or '' when absent, and its flag only when existing values are used |
| `PermissionTree.CreateSubModuleGroup` | src/app/pages/permissions/permissions.component.ts:258-272 | the same for a sub-module, with one child node per child record in order (none for a missing array) |
| `PermissionTree.CreateModuleGroup` | src/app/pages/permissions/permissions.component.ts:242-256 | the same for a module, with one sub-module node per record in order |
| `PermissionTree.BuildModules` | src/app/pages/permissions/permissions.component.ts:227-240 | one module node per record, in order, each built from its record; empty for a missing or empty list; every flag false when existing values are not used |
| `PermissionTree.PrepareFormData` | src/app/pages/permissions/permissions.component.ts:375-397 | the payload keeps the id, upper-cases the role and reproduces every node's id, name and flag on all three levels, in order |
| `PermissionTree.CreateRequestBody` | src/app/pages/permissions/permissions.component.ts:399-402 | the create body is the prepared payload without `_id` |
| `PermissionTree.UpdateRequestBody` | src/app/pages/permissions/permissions.component.ts:426-433 | the update body has exactly one `{name, allowed}` entry per module, in order |
| `PermissionTree.UpdateBodyOfForm` | src/app/pages/permissions/permissions.component.ts:426-433 | for a form, the update body's role is the form's role upper-cased (upper-casing twice changes nothing) and its entries are the tree's modules |
| `PermissionTree.PayloadRoundTrip` | src/app/pages/permissions/permissions.component.ts:375-397 | reading a saved payload back as records and rebuilding the tree with existing values gives back exactly the tree that was saved |
| `PermissionTree.FilterRoles` | src/app/pages/permissions/permissions.component.ts:147-149 | a row is in the result iff it is in the table and its lower-cased role contains the term |
| `PermissionTree.FilterRolesKeepsMultiplicity` | src/app/pages/permissions/permissions.component.ts:147-149 | each matching row is kept as often as it occurs in the table, each other row dropped |
| `PermissionTree.FilterRolesIsSubsequence` | src/app/pages/permissions/permissions.component.ts:147-149 | the filtered rows keep the table's order |
| `PermissionTree.SearchResultSpec` | src/app/pages/permissions/permissions.component.ts:140-150 | a blank term shows all rows; any other term shows, in order, exactly the rows whose lower-cased role contains the lower-cased term |
| `PermissionTree.SearchIgnoresTermCase` | src/app/pages/permissions/permissions.component.ts:140-150 | searching for a term in capitals shows the same rows as searching for the term as typed |
| `Text.TrimEmptyIffBlank` | src/app/pages/permissions/permissions.component.ts:141 | `trim()` gives '' exactly when the string is blank |
| `Text.TrimStart` | src/app/pages/permissions/permissions.component.ts:183 | the leading whitespace of `trim()`: the result is a suffix of the string, does not start with whitespace, and everything dropped is whitespace |
| `Text.TrimEnd` | src/app/pages/permissions/permissions.component.ts:183 | the trailing whitespace of `trim()`: the result is a prefix of the string, does not end with whitespace, and everything dropped is whitespace |
| `Text.Trim` | src/app/pages/permissions/permissions.component.ts:183 | `trim()` (also used at lines 141 and 193): a prefix of the string without its leading whitespace, followed there only by whitespace, never longer than the string, and neither starting nor ending with whitespace |
| `Text.ToLower` | src/app/pages/permissions/permissions.component.ts:146 | `toLowerCase()`: same length, each upper-case ASCII letter becomes its lower-case partner, every other character is kept, so no upper-case letter is left |
| `Text.ToUpper` | src/app/pages/permissions/permissions.component.ts:380 | `toUpperCase()`: same length, each lower-case ASCII letter becomes its upper-case partner, every other character is kept, so no lower-case letter is left |
| `Text.LowerOfUpper` | src/app/pages/permissions/permissions.component.ts:146 | lower-casing an upper-cased term gives the same as lower-casing the term itself |
| `Text.UpperKeepsBlank` | src/app/pages/permissions/permissions.component.ts:141 | an upper-cased term is blank exactly when the term is |
| `Text.Contains` | src/app/pages/permissions/permissions.component.ts:148 | `includes`: a string only contains a term no longer than itself, and contains every prefix and suffix of itself (so always the empty term) |
| `Text.ToUpperIdempotent` | src/app/pages/permissions/permissions.component.ts:428 | upper-casing an upper-cased role changes nothing |
| `PermissionsComponent.ToggleAllChildren` | src/app/pages/permissions/permissions.component.ts:336-342 | the loop sets every child's flag and yields exactly `CascadeChildren` |
| `PermissionsComponent.ToggleAllSubModules` | src/app/pages/permissions/permissions.component.ts:326-334 | the loop sets each sub-module, then its children, and yields exactly `CascadeSubModules` |
| `PermissionsComponent.CalculatePermissionCount` | src/app/pages/permissions/permissions.component.ts:152-166 | the three nested counting loops return `PermissionCount`: one per allowed node at each level, 0 for a missing list |
| `PermissionsComponent.DefaultModules` | src/app/pages/permissions/permissions.component.ts:199-206 | the fallback structure is one "Cricket" module with no sub-modules; it counts no permission and builds a tree whose only module is unchecked |
| `PermissionsComponent.AddRoleSource` | src/app/pages/permissions/permissions.component.ts:196-208 | a new role starts from the first table row's modules when that row has a modules array (an empty one included), otherwise from `DefaultModules`; it is never missing |
| `PermissionsComponent.PermissionsEditor.constructor` | src/app/pages/permissions/permissions.component.ts:62-94 | empty form (id '', role '', no modules), empty table, modal closed |
| `PermissionsComponent.PermissionsEditor.OnModuleToggle` | src/app/pages/permissions/permissions.component.ts:285-291 | the tree becomes `ModuleToggled` of the old tree |
| `PermissionsComponent.PermissionsEditor.OnSubModuleToggle` | src/app/pages/permissions/permissions.component.ts:293-303 | the tree becomes `SubModuleToggled` of the old tree |
| `PermissionsComponent.PermissionsEditor.OnChildToggle` | src/app/pages/permissions/permissions.component.ts:305-324 | the tree becomes `ChildToggled` of the old tree |
| `PermissionsComponent.PermissionsEditor.UpdateParentModuleState` | src/app/pages/permissions/permissions.component.ts:344-354 | module i is allowed iff all its sub-modules are; its sub-modules, id, name and all other modules unchanged |
| `PermissionsComponent.PermissionsEditor.InitializeModulesForm` | src/app/pages/permissions/permissions.component.ts:227-240 | after clearing and pushing one group per module, the tree is `BuildModules` of the source |
| `PermissionsComponent.PermissionsEditor.SearchData` | src/app/pages/permissions/permissions.component.ts:140-150 | the filtered rows become `SearchResult` of the table and the term |
| `PermissionsComponent.PermissionsEditor.ClearSearch` | src/app/pages/permissions/permissions.component.ts:504-507 | empty search box, whole table shown |
| `PermissionsComponent.PermissionsEditor.OpenAddRoleModal` | src/app/pages/permissions/permissions.component.ts:182-211 | a name that trims to nothing only sets the error, and the modal and form stay as they were; otherwise add mode on the trimmed name, id '', tree built from the first table row's module structure (or the default module when that row has no modules array) with every flag cleared, modal open |
| `PermissionsComponent.PermissionsEditor.OpenInAddMode` | src/app/pages/permissions/permissions.component.ts:188-210 | error cleared, add mode, id '', the given role name, the tree built without existing values so that nothing in it is allowed, modal open |
| `PermissionsComponent.PermissionsEditor.ViewPermission` | src/app/pages/permissions/permissions.component.ts:213-225 | edit mode on the role's id and name, tree built with its flags kept, modal open |
| `PermissionsComponent.PermissionsEditor.CloseModal` | src/app/pages/permissions/permissions.component.ts:486-491 | modal closed, error cleared, form and tree discarded |
| `Team.AddPlayer` | src/app/pages/team/team.component.ts:187-191 | one empty player is appended iff the roster has fewer than 11; earlier players unchanged |
| `Team.RemoveLastPlayer` | src/app/pages/team/team.component.ts:193-197 | only the last player is removed, iff there are more than 1; earlier players unchanged |
| `Team.RostersStayInBounds` | src/app/pages/team/team.component.ts:187-214 | starting from 1..11 players per team, any sequence of add/remove clicks keeps both rosters within 1..11 |
| `Team.RostersIndependent` | src/app/pages/team/team.component.ts:199-214 | Team B's clicks leave Team A's roster as it was, and the other way round |
| `Team.AddThenRemove` | src/app/pages/team/team.component.ts:187-197 | with room left, removing after adding gives the roster back |
| `Team.TeamForm.constructor` | src/app/pages/team/team.component.ts:86-99 | every form field empty, both rosters empty, no flag files |
| `Team.TeamForm.InitializeForm` | src/app/pages/team/team.component.ts:101-104 | one add on each roster; from a fresh form each team has exactly one empty player |
| `Team.TeamForm.AddTeamAPlayer` | src/app/pages/team/team.component.ts:187-191 | Team A's roster becomes `AddPlayer` of the old one; Team B untouched |
| `Team.TeamForm.RemoveTeamAPlayer` | src/app/pages/team/team.component.ts:193-197 | Team A's roster becomes `RemoveLastPlayer` of the old one; Team B untouched |
| `Team.TeamForm.AddTeamBPlayer` | src/app/pages/team/team.component.ts:204-208 | Team B's roster becomes `AddPlayer` of the old one; Team A untouched |
| `Team.TeamForm.RemoveTeamBPlayer` | src/app/pages/team/team.component.ts:210-214 | Team B's roster becomes `RemoveLastPlayer` of the old one; Team A untouched |
| `Team.TeamForm.AutoFillTitle` | src/app/pages/team/team.component.ts:135-144 | the title becomes "A vs B" when both names are non-empty, else it is unchanged |
| `Team.TeamForm.SelectTeamA` | src/app/pages/team/team.component.ts:107-113 | Team A's name and code come from the option and the A dropdown closes; the title auto-fill then runs |
| `Team.TeamForm.SelectTeamB` | src/app/pages/team/team.component.ts:115-121 | the same for Team B |
| `Team.TeamForm.ResetControls` | src/app/pages/team/team.component.ts:315 | every text control of the form back to empty |
| `Team.TeamForm.ClearRosters` | src/app/pages/team/team.component.ts:321-326 | removing the first player until none is left empties both rosters |
| `Team.TeamForm.ResetForm` | src/app/pages/team/team.component.ts:314-332 | fields cleared, no flag files or previews, exactly one empty player per team, preview hidden, message cleared |
| `Events.CeilDiv` | src/app/pages/events/events.component.ts:72 | the least page count whose pages hold all records: 0 exactly for 0 records |
| `Events.PageNumbers` | src/app/pages/events/events.component.ts:73 | n strictly increasing numbers, each between 1 and n, so exactly [1..n] |
| `Events.PageNumbersAreValidPages` | src/app/pages/events/events.component.ts:73 | a number is listed iff it lies in 1..n |
| `Events.RequestFor` | src/app/pages/events/events.component.ts:43-53 | start is the page's first record offset `(page-1)*pageSize`, length the page size, search term passed, regex off |
| `Events.RequestStartAligned` | src/app/pages/events/events.component.ts:43-53 | from page 1 on, the start is non-negative and a multiple of the page size |
| `Events.RecordOnExactlyOnePage` | src/app/pages/events/events.component.ts:71-74 | every record index below the total lies within the [start, start+pageSize) window of exactly one listed page |
| `Events.EventsList.constructor` | src/app/pages/events/events.component.ts:17-27 | page size 25, page 1, no records, no pages, modal closed, nothing pending |
| `Events.EventsList.LoadEventsRequest` | src/app/pages/events/events.component.ts:42-53 | the request for the current page starts at a non-negative multiple of the page size |
| `Events.EventsList.CalculatePagination` | src/app/pages/events/events.component.ts:71-74 | totalPages is the ceiling of records over page size and pagesArray is [1..totalPages] |
| `Events.EventsList.OnEventsLoaded` | src/app/pages/events/events.component.ts:56-61 | the rows (none when absent) and recordsTotal (0 when absent) are stored, pagination recomputed |
| `Events.EventsList.OnEventsLoadFailed` | src/app/pages/events/events.component.ts:62-67 | no rows, no records, no pages |
| `Events.EventsList.GoToPage` | src/app/pages/events/events.component.ts:76-81 | the page changes and a reload is requested only for 1 <= p <= totalPages; otherwise nothing changes |
| `Events.EventsList.OnSearchChange` | src/app/pages/events/events.component.ts:83-86 | current page reset to 1, and the reload starts at offset 0 |
| `Events.EventsList.ConfirmDelete` | src/app/pages/events/events.component.ts:96-99 | the id becomes pending and the modal opens |
| `Events.EventsList.CloseDeleteModal` | src/app/pages/events/events.component.ts:117-120 | modal closed, no id pending |
| `Events.EventsList.ExecuteDelete` | src/app/pages/events/events.component.ts:101-115 | a delete request is issued iff an id is pending, for that id; the state is unchanged |
| `Events.EventsList.OnDeleteResponse` | src/app/pages/events/events.component.ts:103-113 | after either response the modal is closed and no id is pending; a reload is requested only on success |

## Left out

- Network calls are not modelled. This covers `loadPermissions`, the requests of `createRole`/`updateRole`, the team `onSubmit` post, the `loadEvents` fetch and the delete request. The model returns the request bodies and ids these would send. The events page's load and delete callbacks are modelled with the response as a parameter. The permissions page's create/update/load callbacks are not modelled, including the role refresh for the logged-in user.
- `onPermissionsSubmit` is not modelled. Its guard is Angular's `Validators.required`/`maxLength(50)` on the role name; the validator framework and `markFormGroupTouched` are out of scope.
- Toastr notifications and `console.error` are UI side effects and are not modelled.
- The checkbox's own write to a node's `allowed` flag is not modelled. It is the template's form binding. The handlers take the tree after that write, and the consistency lemmas hold whatever the write did.
- The toggle handlers require valid module and sub-module indices. The template only passes indices of rendered rows. With an invalid index, `FormArray.at` returns undefined and the handler throws.
- The `permissionsCount` property that `loadPermissions` adds to each table row is not modelled; `CalculatePermissionCount` computes its value.
- `formatDate` is not modelled. It depends on `Date` and locale formatting.
- `Text.ToLower`, `Text.ToUpper` and `Text.IsWhitespace` cover ASCII only. JavaScript's case mapping and `trim` also act on non-ASCII characters.
- Angular's `reset()` sets fields to null. The model uses the empty string, which `autoFillTitle` and the guards treat the same way.
- `Events.CeilDiv`: `Math.ceil(totalRecords / pageSize)` divides floats. The model uses integer ceiling division and assumes a positive page size.
- `onTeamAFlagChange`/`onTeamBFlagChange` use `FileReader`. `onTeamABlur`/`onTeamBBlur` use `setTimeout`. The delayed reset in `handleSuccess` is a timer. These asynchronous browser APIs are not modelled; `ResetForm` models the reset itself.
- `prepareSubmitData`, `preparePreviewData` and `handleError` are not modelled. They build the team submission's `FormData` and JSON strings for the HTTP post.
- Typing a player's name or type is a form-control binding, so players are only added empty and removed.
- `onModalBackdropClick`, `onModalContentClick`, `navigateToAdd` and `navigateToEdit` are DOM event plumbing and routing, and are not modelled.
- Event rows are `any` in the source. Here they are an id and a title. The request's `columns` and `order` are always empty arrays and are omitted.
