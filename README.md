# Lockbox password manager: a Dafny model of its view logic

Lockbox is a small React demo password manager. One page (`Index`) holds an
in-memory list of credential entries (id, website, username, password,
creation time) and a search box. The list is seeded with two demo entries
when the page mounts. An "Add Password" dialog puts new entries at the front
of the list. Each visible entry is drawn as a card whose password is masked
until its eye button is pressed.

This project models the rules behind that UI and proves them:

- `text.dfy` (`Text`): the JavaScript string builtins the components use.
  These are `toLowerCase` (ASCII letters only), `includes` (substring test,
  characterised by an occurrence position) and `repeat`.
- `entries.dfy` (`Entries`): the `PasswordEntry` record. `Index.tsx` and
  `PasswordCard.tsx` both declare it, identically.
- `page.dfy` (`Page`): the `Index` component.
  - The seed data.
  - `handleAddPassword`, which prepends.
  - The `filteredPasswords` filter: case-insensitive, on website OR username, keeping list order.
  - The empty-state message.
  - The `Index` class, whose fields `passwords` and `searchTerm` are the component state.
  - `SubmitAddDialog`, which wires the dialog's `onAdd` to `handleAddPassword`.
- `dialog.dfy` (`Dialog`): the `AddPasswordDialog` component.
  - A class with the four state fields `open`, `website`, `username` and `password`.
  - Their `onChange`/`onOpenChange` setters, `handleSubmit` and Cancel.
  - The submit check, as a pure function.
- `card.dfy` (`Card`): the `PasswordCard` component.
  - `getMaskedPassword`.
  - The displayed-secret choice.
  - The `showPassword` toggle, as a class field.

The `onAdd` callback is modelled as the result of `HandleSubmit`. `Some(data)`
means `onAdd` was called once, with `data`. `None` means it was not called.
The clock-derived values `Date.now().toString()` (the id) and
`new Date().toISOString()` (`created_at`) come in as parameters. The model
makes no claim that ids are unique, because the code gives no such guarantee.

The model keeps four facts about the code that are easy to assume otherwise:

- There is no delete operation.
- Validation rejects only the empty string. Nothing is trimmed, so whitespace-only fields are accepted.
- Ids are timestamps. Nothing makes them unique.
- The filter does not trim the search term.

## Model

| member | source | states |
|---|---|---|
| Text.ToLower | src/pages/Index.tsx:51-52 | lower-casing keeps the length, turns each ASCII upper-case letter into its lower-case letter, leaves every other character alone, and leaves no upper-case ASCII letter |
| Text.Includes | src/pages/Index.tsx:51-52 | `s.includes(t)` holds exactly when `t` occurs in `s` at some position |
| Text.IncludesEmpty | src/pages/Index.tsx:49-53 | every string includes the empty term |
| Text.ToLowerIdempotent | src/pages/Index.tsx:51-52 | lower-casing the term or a field twice is the same as lower-casing it once |
| Text.MissingCharNotIncluded | src/pages/Index.tsx:51-52 | a field lacking any one character of the term does not include the term |
| Text.Repeat | src/components/PasswordCard.tsx:40 | `c.repeat(n)` has length `n` and every character is `c` |
| Page.MockData | src/pages/Index.tsx:21-36 | the seed list has exactly two entries: ids "1" then "2", websites "github.com" then "google.com", with the given timestamps |
| Page.NewEntry | src/pages/Index.tsx:41-45 | the new entry carries the given id and timestamp and the submitted website, username and password verbatim |
| Page.AddPassword | src/pages/Index.tsx:40-47 | after an add the list is one longer; the new entry is first and carries the given id and timestamp and the submitted website, username and password verbatim; the old entries follow unchanged and in order |
| Page.Index.HandleAddPassword | src/pages/Index.tsx:40-47 | the component's list becomes the new entry prepended to the old list; the search term is unchanged |
| Page.Matches | src/pages/Index.tsx:50-52 | an entry matches iff the lower-cased term occurs somewhere in the lower-cased website or somewhere in the lower-cased username |
| Page.Filter | src/pages/Index.tsx:49-53 | the filtered list is no longer than the list and holds only list entries that match |
| Page.FilterIsStableSelection | src/pages/Index.tsx:49-53 | the filtered list is the list restricted to exactly the matching positions, taken in increasing order (a stable subsequence) |
| Page.FilterMembership | src/pages/Index.tsx:50-52 | an entry is shown iff it is in the list and its lower-cased website or lower-cased username includes the lower-cased term |
| Page.FilterEmptyTerm | src/pages/Index.tsx:49-53 | an empty search keeps every entry in its order |
| Page.FilterAppend | src/pages/Index.tsx:49-53 | filtering a concatenation is concatenating the filtered parts |
| Page.FilterIdempotent | src/pages/Index.tsx:49-53 | filtering the filtered list again with the same term changes nothing |
| Page.FilterIgnoresPassword | src/pages/Index.tsx:50-52 | the password is never consulted: blanking every password before filtering gives the filtered list with passwords blanked |
| Page.MatchesIgnoresTermCase | src/pages/Index.tsx:51-52 | a term and its lower-case form match the same entries |
| Page.FilterAfterAdd | src/pages/Index.tsx:46-53 | after an add the visible list is the new entry (if it matches the term) followed by the previously visible list |
| Page.AddedEntryShownFirst | src/pages/Index.tsx:46-53 | with an empty search, a newly added entry is the first card shown |
| Page.NoMatchWithoutChars | src/pages/Index.tsx:50-52 | an entry whose website and username each lack some character of the term is filtered out |
| Page.MockDataSearch | src/pages/Index.tsx:21-53 | on the seed list, "git" keeps only the github.com entry, "GMAIL" only the google.com entry (through its username), and "com" keeps both in order |
| Page.View | src/pages/Index.tsx:83-97 | cards are shown iff the filtered list is non-empty, and they are the filtered list; otherwise the hint is "Try adjusting your search" iff the term is non-empty and "Get started by adding your first password" iff it is empty |
| Page.GetStartedIffEmptyList | src/pages/Index.tsx:83-88 | the "Get started" message appears iff the list itself is empty and the search term is empty |
| Page.TryAdjustingIffSearchMissed | src/pages/Index.tsx:83-88 | the "Try adjusting your search" message appears iff the term is non-empty and no entry matches it |
| Page.Index.constructor | src/pages/Index.tsx:16-17 | the list and the search term start empty |
| Page.Index.LoadMockData | src/pages/Index.tsx:20-38 | the mount effect replaces the list with the two seed entries and leaves the search term alone |
| Page.Index.SetSearchTerm | src/pages/Index.tsx:76 | typing in the search box sets the term and leaves the list alone |
| Page.Index.FilteredPasswords | src/pages/Index.tsx:49-53 | the visible list holds exactly the list's entries that match the current term, is no longer than the list, and is the whole list when the term is empty |
| Page.Index.CurrentView | src/pages/Index.tsx:83-97 | cards are shown iff the visible list is non-empty, and they are that list; "Try adjusting your search" iff the term is non-empty; "Get started" iff the list is empty and the term is empty |
| Page.SubmitAddDialog | src/pages/Index.tsx:80 | a submit the dialog accepts adds exactly one entry with the typed values in front, and leaves the dialog closed with all fields empty; a rejected submit leaves the list and the whole dialog state unchanged |
| Page.Mount | src/pages/Index.tsx:16-38 | right after mounting, the page shows both seed entries as cards |
| Dialog.Validate | src/components/AddPasswordDialog.tsx:23-32 | a submit is rejected iff some field is the empty string; otherwise the payload is exactly the three field values |
| Dialog.WhitespaceAccepted | src/components/AddPasswordDialog.tsx:23 | fields made only of spaces pass validation and are passed on unchanged |
| Dialog.AddPasswordDialog.constructor | src/components/AddPasswordDialog.tsx:14-17 | the dialog starts closed with all three fields empty |
| Dialog.AddPasswordDialog.SetOpen | src/components/AddPasswordDialog.tsx:45 | opening or closing the dialog leaves the fields alone |
| Dialog.AddPasswordDialog.SetWebsite | src/components/AddPasswordDialog.tsx:63 | typing in the website input sets only the website field |
| Dialog.AddPasswordDialog.SetUsername | src/components/AddPasswordDialog.tsx:72 | typing in the username input sets only the username field |
| Dialog.AddPasswordDialog.SetPassword | src/components/AddPasswordDialog.tsx:82 | typing in the password input sets only the password field |
| Dialog.AddPasswordDialog.HandleSubmit | src/components/AddPasswordDialog.tsx:20-42 | with an empty field, `onAdd` is not called and nothing changes; otherwise `onAdd` is called once with the exact field values, the fields are cleared and the dialog closes |
| Dialog.AddPasswordDialog.Cancel | src/components/AddPasswordDialog.tsx:89-96 | Cancel closes the dialog and keeps the typed fields |
| Dialog.CancelThenReopen | src/components/AddPasswordDialog.tsx:92 | after Cancel, reopening shows the fields exactly as they were typed |
| Dialog.SubmitTwice | src/components/AddPasswordDialog.tsx:32-36 | a submit right after an accepted one is rejected, because the fields were cleared |
| Card.MaskedPassword | src/components/PasswordCard.tsx:39-41 | the mask has the password's length and every character is `•` |
| Card.MaskRevealsOnlyLength | src/components/PasswordCard.tsx:39-41 | two passwords give the same mask iff they have the same length |
| Card.DisplayedSecret | src/components/PasswordCard.tsx:79 | a revealed card shows the password itself; a hidden card shows one `•` per password character |
| Card.PasswordCard.Displayed | src/components/PasswordCard.tsx:79 | the card shows text as long as the password: the password itself when `showPassword` is set, bullets only otherwise |
| Card.HiddenSecretIndependentOfPassword | src/components/PasswordCard.tsx:79 | hidden cards for passwords of equal length display the same text |
| Card.PasswordCard.constructor | src/components/PasswordCard.tsx:20 | a card starts hidden, so it displays the mask |
| Card.PasswordCard.ToggleShowPassword | src/components/PasswordCard.tsx:87 | the eye button flips `showPassword`, switching between the password and the mask |
| Card.ToggleTwice | src/components/PasswordCard.tsx:87 | pressing the eye button twice restores both `showPassword` and the displayed text |

## Left out

- JSX layout, CSS classes, icons and dialog chrome are not modelled. They are presentation only.
- Rendering one `PasswordCard` per filtered entry (`key={password.id}`) is not modelled. React's keyed reconciliation is outside the model, and so is what duplicate ids would do to card state.
- Toast notifications are not modelled. They are side effects through a hook outside these files.
- Clipboard copy (`copyToClipboard`) is not modelled. It is asynchronous browser I/O, and its failure handling only shows a toast.
- `Date.now()`, `new Date().toISOString()` and `toLocaleDateString()` are not modelled, because they depend on the clock and the locale. The id and `created_at` are opaque string parameters of the add, and the two seed timestamps are parameters of the mount.
- `e.preventDefault()` and React's `useState`/`useEffect` scheduling are not modelled. The state is plain fields updated by methods, and one call to `LoadMockData` stands for the mount effect.
- Text.ToLower: models `toLowerCase` for ASCII letters only. It does not cover Unicode case mapping.
- Card.MaskedPassword: counts Dafny characters (Unicode scalar values). JavaScript's `length` counts UTF-16 code units, so a character outside the Basic Multilingual Plane gets two bullets there and one here. Every member built on it inherits this gap: Card.MaskRevealsOnlyLength, Card.DisplayedSecret, Card.HiddenSecretIndependentOfPassword, Card.PasswordCard.Displayed and the PasswordCard constructor.
- Delete, edit, trimming and unique ids are not modelled, because the code has none of them.
