# Phonebook app: stores, phone formatter and route guard

A Dafny model of the logic of a small phonebook web client:

- **Contact store** (`contact_store.dfy`, module `Contacts`): an ordered
  in-memory list of contacts and the `nextId` counter that hands out ids. You
  can look a contact up by id, create one (appended under a fresh id), update
  one in place (an error when the id is missing) and delete by id. The class
  `ContactStore` holds the list as a `seq` field. Each method's postcondition
  ties the new list to the old one. The invariant "every id is present, below
  `nextId` and unique" (`IdsValid`) is kept by every method. The lemmas
  describe the list operations `FirstIndexOf` and `WithoutId`: order is kept,
  a missing id deletes nothing, and a present id removes exactly one contact.
- **Session store** (`auth_store.dfy`, module `Auth`): `token`, `user` and
  `isAuthenticated`, plus the value under the `token` storage key. The class
  `AuthStore` holds these as fields. `Login` and `Register` always succeed and
  set all of them. `Logout` clears all of them. Every operation keeps
  `Valid()`: the flag follows the token and storage mirrors the token. After
  login, register and logout the flag is exactly "a token is held"
  (`Settled()`). The mock token is `mock-token-` followed by the time in
  decimal. Tokens minted at different instants differ.
- **Phone formatter** (`phone_formatter.dfy`, module `PhoneFormatter`): pure
  string functions. `Sanitize` keeps the digits and drops everything else.
  `FormatDisplay` gives the Brazilian `(DD) DDDDD-DDDD` / `(DD) DDDD-DDDD`
  layout. `Validate` checks for 10 to 20 digits. `KeyBlocked` decides whether a
  key press is refused. The main lemmas are the round trip
  `Sanitize(FormatDisplay(p)) == Sanitize(p)` and the idempotence of both
  functions.
- **Route guard** (`router.dfy`, module `Router`): the route table's
  `requiresAuth`/`requiresGuest` flags and the `beforeEach` decision. The
  lemmas show that a signed-out visitor is never let through to a route
  matched as a contact route, and a signed-in user never to the route matched
  as `/login` or `/register`. These lemmas take the matched route's declared
  path (such as `/contacts/:id`), not the visited URL. They also show that a
  redirect always lands on a route the same visitor may enter.

`wrappers.dfy` holds `Option` (for `null`/`undefined`) and `Result` (for a
thrown `Error`); `chars.dfy` holds the ASCII-digit class both the phone helper
and the token's decimal form use.

Both stores are mocks. Login, registration and every contact operation first
wait on a timer; logout is synchronous. `getContact` and `fetchContacts`
leave the contact list alone; `fetchContacts` only sets `loading` before its
timer and clears it after. Login and registration always succeed. Updating a missing id
throws `Error('Contact not found')`, modelled as an `Err` result.

The session store seeds `isAuthenticated` with `!!token`. A stored empty
string therefore gives a present but falsy token that is not authenticated.
`Valid()` states the flag as "the token is a non-empty string" (`Truthy`). The
stricter "flag iff token present" (`Settled()`) holds after every operation,
but not for a store seeded with `""`.

`KeyBlocked` follows the unanchored `/[0-9]/` test. Any key whose name contains
a digit, such as `F5`, is let through.

## Model

| member | source | states |
|---|---|---|
| `PhoneFormatter.Sanitize` | src/composables/usePhoneFormatter.ts:2-4 | the result holds only ASCII digits and is no longer than the input |
| `PhoneFormatter.SanitizeChar` | src/composables/usePhoneFormatter.ts:3 | one character is kept if it is a digit and removed otherwise |
| `PhoneFormatter.SanitizeConcat` | src/composables/usePhoneFormatter.ts:3 | sanitizing works piecewise over concatenation; with SanitizeChar this says the output is the input's digits in their original order |
| `PhoneFormatter.SanitizeDigits` | src/composables/usePhoneFormatter.ts:2-4 | a string made only of digits is returned unchanged |
| `PhoneFormatter.SanitizeIdempotent` | src/composables/usePhoneFormatter.ts:2-4 | sanitizing twice gives the same as sanitizing once |
| `PhoneFormatter.SanitizeEmptyIffNoDigit` | src/composables/usePhoneFormatter.ts:3 | sanitizing leaves nothing exactly when the input has no digit |
| `PhoneFormatter.FormatDisplay` | src/composables/usePhoneFormatter.ts:6-16 | for 11 digits the result is 15 characters: `(`, two digits, `) `, five digits, `-`, four digits; for 10 digits it is 14 characters: `(`, two digits, `) `, four digits, `-`, four digits; for any other count it is the bare digits |
| `PhoneFormatter.SanitizeSeparators` | src/composables/usePhoneFormatter.ts:10-12 | the separators `(`, `) ` and `-` added by the display layout contain no digit |
| `PhoneFormatter.SanitizeLayout` | src/composables/usePhoneFormatter.ts:10-12 | sanitizing the display layout of three runs of digits gives back their concatenation |
| `PhoneFormatter.FormatRoundTrip` | src/composables/usePhoneFormatter.ts:6-16 | the digits of the display form are exactly the digits of the input, for every input |
| `PhoneFormatter.FormatIdempotent` | src/composables/usePhoneFormatter.ts:6-16 | formatting an already formatted number changes nothing |
| `PhoneFormatter.Validate` | src/composables/usePhoneFormatter.ts:18-21 | true iff the input has 10 to 20 digits; a valid input is at least 10 characters long |
| `PhoneFormatter.ValidateFormat` | src/composables/usePhoneFormatter.ts:18-21 | the 10-to-20-digit test gives the same answer on a number and on its display form |
| `PhoneFormatter.KeyBlocked` | src/composables/usePhoneFormatter.ts:23-30 | a key is blocked iff no character of its name is an ASCII digit and it is not Backspace, Delete, ArrowLeft, ArrowRight or Tab |
| `PhoneFormatter.KeyBlockedIff` | src/composables/usePhoneFormatter.ts:23-30 | a key is refused exactly when its name contains no digit and it is not Backspace, Delete, ArrowLeft, ArrowRight or Tab |
| `Router.Guard` | src/router/index.ts:47-57 | navigation goes ahead exactly when the route is not auth-only for a signed-out visitor and not guest-only for a signed-in one; an auth-only route visited while signed out redirects to `/login`, and this check comes first; otherwise a guest-only route visited while signed in redirects to `/` |
| `Router.RouteTableFlags` | src/router/index.ts:8-44 | no route is both auth-only and guest-only; the guest-only routes are `/login` and `/register`; the auth-only routes are the four contact routes; each of these paths is declared |
| `Router.MetaOf` | src/router/index.ts:8-44 | the flags of the first route declared with exactly this path; no flags when no route declares it |
| `Router.MetaOfTable` | src/router/index.ts:8-44 | looking up each declared path gives the flags the table declares for it |
| `Router.GuardProtectsRoutes` | src/router/index.ts:8-57 | for a matched route given by its declared path: a signed-out visitor to a contact route is sent to `/login`; a signed-in user on `/login` or `/register` is sent to `/` |
| `Router.RedirectSettles` | src/router/index.ts:47-57 | every redirect target is a declared route that the guard lets the same visitor through to |
| `Auth.DecimalString` | src/stores/auth.ts:13 | a number turned into a string is a non-empty run of decimal digits with no leading zero |
| `Auth.DecimalRoundTrip` | src/stores/auth.ts:13 | reading the decimal string back gives the number |
| `Auth.MockToken` | src/stores/auth.ts:13 | the mock token is longer than the `mock-token-` prefix and starts with it |
| `Auth.MockTokenInjective` | src/stores/auth.ts:13 | tokens minted at different instants are different |
| `Auth.AuthStore.constructor` | src/stores/auth.ts:5-7 | the token and the storage key hold the stored value; there is no user; `isAuthenticated` is the truthiness of the stored token |
| `Auth.AuthStore.Login` | src/stores/auth.ts:9-22 | the token is `mock-token-` plus the time and is written to storage; the user is the mock user with the given email; `isAuthenticated` is true; the result is true; the invariants hold |
| `Auth.AuthStore.Register` | src/stores/auth.ts:24-37 | the same effects as Login, with the user's name and email taken from the arguments |
| `Auth.AuthStore.Logout` | src/stores/auth.ts:39-44 | the token, the user and the storage key are cleared and `isAuthenticated` is false; the new state does not depend on the old one |
| `Auth.LogoutTwice` | src/stores/auth.ts:39-44 | after two logouts the token, the user and the storage key are cleared and `isAuthenticated` is false, the same state one logout leaves (idempotence) |
| `Contacts.FirstIndexOf` | src/stores/contacts.ts:76 | the result is -1 exactly when no contact has the id; otherwise it is the position of a contact with the id and no earlier contact has it |
| `Contacts.WithoutId` | src/stores/contacts.ts:100 | no kept contact has the id; each kept contact comes from the list; the result is no longer than the list |
| `Contacts.Stamped` | src/stores/contacts.ts:59-63 | the spread record carries the given id and image and keeps the caller's name, email and phone |
| `Contacts.SeedValid` | src/stores/contacts.ts:13-38 | the seed contacts have distinct ids, all below the initial `nextId` of 4 |
| `Contacts.WithoutIdConcat` | src/stores/contacts.ts:100 | deletion works piecewise over concatenation, so kept contacts stay in their original relative order |
| `Contacts.WithoutIdAbsent` | src/stores/contacts.ts:100 | deleting an id that no contact has leaves the list unchanged |
| `Contacts.WithoutIdKeeps` | src/stores/contacts.ts:100 | every contact with a different id survives deletion |
| `Contacts.WithoutIdRemovesOne` | src/stores/contacts.ts:100 | with distinct ids, deleting a present id removes exactly the one contact at its position |
| `Contacts.DeletePreservesIds` | src/stores/contacts.ts:100 | deletion keeps every id present, below `nextId` and distinct |
| `Contacts.AppendPreservesIds` | src/stores/contacts.ts:59-65 | appending a contact that carries `nextId`, then incrementing the counter, keeps the id invariant |
| `Contacts.ReplacePreservesIds` | src/stores/contacts.ts:88-94 | replacing a contact by one with the same id keeps the id invariant |
| `Contacts.ContactStore.constructor` | src/stores/contacts.ts:13-38 | the list is the three seed contacts, `nextId` is 4, the store is idle, and the id invariant holds |
| `Contacts.ContactStore.FetchContacts` | src/stores/contacts.ts:40-44 | the list is untouched and the store ends idle |
| `Contacts.ContactStore.GetContact` | src/stores/contacts.ts:46-49 | the result is absent exactly when no contact has the id; otherwise it is the first contact with the id; the list is not modified |
| `Contacts.ContactStore.CreateContact` | src/stores/contacts.ts:51-67 | exactly one contact is appended; it has the caller's fields, the id `nextId` (overriding any id the caller gave) and the image URL, or `""` when no file is given; `nextId` goes up by one; the invariant holds |
| `Contacts.ContactStore.UpdateContact` | src/stores/contacts.ts:69-96 | a missing id gives `Err("Contact not found")` and an unchanged list; otherwise only the first contact with the id is replaced, in place. The new contact has the caller's fields, the argument id, and the new file's URL or else the old image (or `""`). The invariant holds |
| `Contacts.ContactStore.DeleteContact` | src/stores/contacts.ts:98-101 | the list becomes the filtered list; a missing id deletes nothing and a present id removes just its one position; the invariant holds |

## Left out

- Timers, `async` and the `loading` flag set around the fetch delay. Each operation is modelled as one atomic step; `FetchContacts` only ends idle.
- Interleaving of the session operations: logout does not wait, so a logout made while a login or registration is still waiting on its timer is undone when that call finishes. The atomic model cannot show this.
- `URL.createObjectURL`: the image file is given as the object URL it would produce (`Option<string>`).
- `Date.now()`: the time is a `nat` parameter.
- Browser storage: only the `token` key is modelled, as the field `storedToken`. Pinia reactivity becomes plain class fields.
- The `password` arguments: the mocks ignore them, and so does the model.
- Contacts are values, not shared objects. A caller that mutates a returned object, and so changes the stored one, is not modelled.
- `nextId` is an unbounded integer. JavaScript numbers lose precision above 2^53; this is not modelled.
- vue-router itself: history, lazy components and matching of dynamic segments. `MetaOf` looks up a route by its exact declared path. A path no route declares gets no flags.
- The `KeyboardEvent` and `preventDefault`: the decision is the boolean `KeyBlocked` over the key name.
- The image-cropper type declarations (`src/types/cropperjs.d.ts`): they contain no logic.
