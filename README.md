# Admin dashboard: permission store, session, route guard and user list

A Dafny model of the stateful logic inside a browser admin dashboard. Most of
the dashboard is UI; four small parts hold state, and each is modelled here as
a class whose methods are the page's handlers:

- **Role permissions** (`permissions.dfy`, module `Permissions`). A map from
  role name to a list of report names, with a selected role, a pending
  new-role name and a "creating" flag. The report catalog has twelve fixed
  entries. Three roles are seeded: `Admin`, `Manager` and `Member`. The
  handlers select a role, toggle one report, select all, deselect all, open,
  edit and cancel the new-role input, create a role, delete a role, and save.
  Each toast becomes an `Outcome` value: `Ok`, `EmptyName`, `Duplicate` or
  `Protected`. The object invariant `Valid()` says three things:
  - every list holds catalog reports, each at most once, so it has at most
    twelve entries;
  - `Admin`, `Manager` and `Member` are always keys, so creating any of
    them is refused as a duplicate;
  - the selected role is always a key.

  Every handler keeps this invariant. Blank names are detected with
  JavaScript's `trim`, which is modelled in `js_string.dfy` (module
  `JsString`) with the ECMAScript whitespace set.
- **Session store** (`auth_service.dfy`, module `Auth`). The browser store's
  `"token"` entry is an `Option<string>` field. `Login` writes
  `"fake-jwt-token"` only for `admin@admin.com` / `password`. `Logout` removes
  the entry. `IsAuthenticated` holds when the entry is present and non-empty.
- **Navigation after login and logout** (`pages.dfy`, module `Pages`). The
  login form's submit goes to `/home` on success. The header's logout goes to
  `/login`. The router is modelled as a returned path.
- **Route guard** (`auth_wrapper.dfy`, module `AuthGate`). It holds the two
  flags `isLoading` and `isAuthenticated`. The asynchronous
  `checkAuthentication` effect is one sequential method. It takes the session
  service's answer, or the fact that the service threw, as a `CheckResult`
  argument, and returns the `replace` navigation it issues, if any. Children
  are rendered exactly when `!isLoading && isAuthenticated`. A failed check
  never sets `isAuthenticated` back to false. So the rule "a redirect never
  comes with rendered children" only holds when the guard was not already
  authenticated. From a freshly mounted guard it always holds.
- **User list** (`users.dfy`, module `Users`). An append-only list whose new
  id is `length + 1`, and a form record that is reset after each add. The
  invariant `users[i].id == i + 1` holds, so ids are unique.

Three behaviours of the page worth knowing:

- A blank role name gets its own rejection, `EmptyName` ("Please enter a role
  name"). It is not a duplicate-role error.
- Toggling a report twice gives back the same reports as a set. The exact
  list comes back when the report was absent or already last. Otherwise it
  moves to the end of the list.
- Saving has no persistence collaborator. The map is only handed to a log,
  so `SavePermissions` returns it and changes nothing.

## Model

| member | source | states |
|---|---|---|
| `Permissions.CatalogWellFormed` | src/pages/permissions.tsx:26-39 | the catalog has twelve distinct reports |
| `Permissions.DefaultRolesWellFormed` | src/pages/permissions.tsx:42-57 | every seeded list is a duplicate-free catalog subset, and the seeded keys are exactly the three protected roles |
| `Permissions.CurrentPermissions` | src/pages/permissions.tsx:71 | the selected role's list, or empty when that key is absent; well-formed whenever every role's list is |
| `Permissions.Without` | src/pages/permissions.tsx:76 | the filter drops every occurrence of the report and keeps every other element with its multiplicity; it is the identity when the report is absent |
| `Permissions.WithoutConcat` | src/pages/permissions.tsx:76 | filtering a concatenation filters each part, and a single element is kept iff it differs from the report, so the kept reports stay in their original order |
| `Permissions.Toggled` | src/pages/permissions.tsx:75-77 | the report is in the result iff it was not in the list; all other reports keep their membership; an absent report is appended at the end; a present one is removed entirely |
| `Permissions.ToggledKeepsWellFormed` | src/pages/permissions.tsx:74-83 | toggling a catalog report keeps a list duplicate-free and inside the catalog |
| `Permissions.ToggleTwiceAbsent` | src/pages/permissions.tsx:75-77 | toggling an absent report twice gives back exactly the original list |
| `Permissions.ToggleTwiceSameReports` | src/pages/permissions.tsx:75-77 | toggling any report twice gives back the same set of reports, and the same multiset when the list had no duplicates |
| `Permissions.WellFormedBounded` | src/pages/permissions.tsx:303-305 | a well-formed list has at most as many entries as the catalog, so "n of 12" never exceeds 12 |
| `Permissions.PermissionsPage.Current` | src/pages/permissions.tsx:71 | under the invariant, the selected role's list is well-formed and has at most 12 entries |
| `Permissions.PermissionsPage.constructor` | src/pages/permissions.tsx:64-67 | starts from the seeded map, with `Admin` selected, an empty pending name and the input closed; the invariant holds |
| `Permissions.PermissionsPage.SelectRole` | src/pages/permissions.tsx:201-209 | selects one of the existing roles and changes nothing else |
| `Permissions.PermissionsPage.ToggleReport` | src/pages/permissions.tsx:74-83 | replaces only the selected role's entry with its toggled list; the report's membership flips; the invariant is kept |
| `Permissions.PermissionsPage.SelectAll` | src/pages/permissions.tsx:168-173 | the selected role's list becomes exactly the catalog; other roles are untouched |
| `Permissions.PermissionsPage.DeselectAll` | src/pages/permissions.tsx:176-181 | the selected role's list becomes empty; other roles are untouched |
| `Permissions.PermissionsPage.StartCreatingRole` | src/pages/permissions.tsx:226-232 | opens the new-role input and changes nothing else |
| `Permissions.PermissionsPage.SetNewRoleName` | src/pages/permissions.tsx:237-240 | the pending name becomes the typed text and nothing else changes |
| `Permissions.PermissionsPage.CancelCreatingRole` | src/pages/permissions.tsx:248-253 | closes the input and clears the pending name, leaving roles and selection alone |
| `Permissions.PermissionsPage.CreateRole` | src/pages/permissions.tsx:86-124 | `EmptyName` iff the name is all whitespace; `Duplicate` iff it is not blank and the exact name is a key; on either nothing changes; otherwise the name maps to an empty list with every other entry unchanged, it becomes the selection, the pending name is cleared and the input closes; the invariant is kept |
| `Permissions.PermissionsPage.DeleteRole` | src/pages/permissions.tsx:127-151 | `Protected` iff the name is Admin, Manager or Member, and then nothing changes; otherwise only that key is removed and the selection returns to `Admin`; the invariant is kept |
| `Permissions.PermissionsPage.SavePermissions` | src/pages/permissions.tsx:154-165 | hands over the current map unchanged (well-formed and holding the three seeded roles) and modifies nothing |
| `JsString.TrimStart` | src/pages/permissions.tsx:87 | the result is the suffix left after removing exactly the leading whitespace |
| `JsString.TrimEnd` | src/pages/permissions.tsx:87 | the result is the prefix left after removing exactly the trailing whitespace |
| `JsString.Trim` | src/pages/permissions.tsx:87 | `TrimEnd` of `TrimStart`: neither end of the result is whitespace, and it is empty (so `!name.trim()` holds) iff every character of the name is whitespace, the empty name included |
| `Auth.SessionStore.constructor` | src/services/AuthService.ts:17 | stands for the `"token"` entry the browser's store already holds, which `isAuthenticated` reads: the store starts with exactly that entry |
| `Auth.SessionStore.IsAuthenticated` | src/services/AuthService.ts:15-18 | true iff the token entry is present and non-empty |
| `Auth.SessionStore.Login` | src/services/AuthService.ts:2-9 | succeeds iff the e-mail and password are the hard-coded pair; on success the token entry is `"fake-jwt-token"`, the result carries that token and the admin user, and the session is authenticated; on failure the result is null and the token entry is unchanged |
| `Auth.SessionStore.Logout` | src/services/AuthService.ts:10-14 | the token entry is gone and the session is not authenticated |
| `Auth.LogoutTwice` | src/services/AuthService.ts:12 | the first logout leaves no token, and a second logout leaves the store exactly as the first one left it |
| `Pages.SubmitLogin` | src/pages/login.tsx:25-41 | navigates to `/home` iff the credentials match, and then the session is authenticated; otherwise there is no navigation and the token entry is unchanged |
| `Pages.HeaderLogout` | src/components/layout/Header.tsx:30-34 | clears the session and navigates to `/login` |
| `AuthGate.AuthGuard.RendersChildren` | src/components/Authentication/AuthWrapper.tsx:37-61 | the children are shown iff the guard is neither loading nor unauthenticated; otherwise the spinner is shown |
| `AuthGate.AuthGuard.constructor` | src/components/Authentication/AuthWrapper.tsx:12-13 | mounts loading and unauthenticated, so the spinner shows |
| `AuthGate.AuthGuard.CheckAuthentication` | src/components/Authentication/AuthWrapper.tsx:16-31 | a true answer sets `isAuthenticated` and issues no navigation; a false answer or an exception replaces the route with `/login` and leaves `isAuthenticated` as it was; loading is off on every branch; from an unauthenticated guard, children render iff there was no redirect |
| `AuthGate.AuthGuard.CheckSession` | src/components/Authentication/AuthWrapper.tsx:18-23 | over the session store, there is no redirect iff the session is authenticated; afterwards `isAuthenticated` is true iff it already was or the session is authenticated (a re-check of a logged-out store keeps an earlier true); a fresh guard renders children iff the session is authenticated |
| `Users.WithInput` | src/pages/users.tsx:58-61 | the changed field takes the new value and the other two fields keep theirs |
| `Users.Appended` | src/pages/users.tsx:64-65 | the old users come first, unchanged and in order, followed by exactly one record with id `length + 1` and the form's name, e-mail and role |
| `Users.InitialUsersSequential` | src/pages/users.tsx:40-44 | the three seeded users have ids 1, 2 and 3 |
| `Users.SequentialIdsUnique` | src/pages/users.tsx:64-65 | ids counted from 1 by position are pairwise distinct |
| `Users.AppendedSequential` | src/pages/users.tsx:64-65 | appending under id `length + 1` keeps `users[i].id == i + 1` |
| `Users.UsersPage.constructor` | src/pages/users.tsx:50-57 | starts from the seeded users and the empty form; ids are sequential and unique |
| `Users.UsersPage.HandleInputChange` | src/pages/users.tsx:58-61 | only the named form field changes; the user list is untouched |
| `Users.UsersPage.AddUser` | src/pages/users.tsx:63-68 | appends the form as one new user with id `length + 1`, with no checks on the values; resets the form to empty name, empty e-mail and `Member`; ids stay sequential and unique |

## Left out

- Rendering, styling, toasts, modals and the spinner's markup. The model keeps only the decisions they show: an `Outcome`, a returned path, and `RendersChildren`.
- `Permissions.PermissionsPage.ToggleReport`: requires a catalog report, because its only caller is the catalog checkbox grid. The pure `Toggled` and its lemmas cover any report name.
- `Permissions.PermissionsPage.SelectRole`: requires an existing role name, because its only caller is the dropdown listing the map's keys.
- `Permissions.PermissionsPage.DeleteRole`: accepts any name, but the page only passes the selected non-seeded role. Deleting a name that is not a key removes nothing and still selects `Admin`.
- JavaScript object-key quirks. For example, `roles["toString"]` is truthy through the prototype. The map is a plain Dafny `map`, so such names are not duplicates here.
- Saving to a backend. The page only logs, so `SavePermissions` returns the map.
- `console.log` and `console.error` output.
- Real `localStorage`, `router.push` and `router.replace`. They are a store field and a returned path. The model does not cover a navigation call that fails.
- React effect scheduling and async/await. Each handler and the check are one sequential step. When a re-check happens (the effect re-runs after the router changes) is not modelled.
- An exception from the session service is not modelled as control flow. It is an input (`CheckResult.Threw`).
- `Users.UsersPage.HandleInputChange`: the role select's value is taken as one of the three role labels, because its only options are those labels. A raw string in the role field is not modelled.
- JavaScript strings are UTF-16 code units; the model's strings are sequences of Unicode scalar values. No behaviour here depends on the difference: every whitespace code point `trim` strips is a single unit, and equality of names agrees on well-formed text. Lone surrogates are not modelled.
- Closing the add-user modal (`onClose`). It is UI state.
- The login page's form fields, the sidebar collapse, the home page's static numbers, the state/county map's colour lookup, the password-change page's timed alert, the theme and the HTTP server bootstrap. They hold no logic that this model states.
