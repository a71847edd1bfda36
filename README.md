# Messenger view-state store

A Dafny model of the state held by the `Index` page of a messenger UI
prototype (`src/pages/Index.tsx`): the session and form fields, the
in-memory user table seeded with one admin record, the synchronous event
handlers that rewrite them, and the values the page derives from them (the
contacts roster, the admin panel's user list and its statistics).

Layout:

- `optional.dfy` (`Optional`): `Option`, for optional record fields, `null`
  state and the `undefined` of `Array.prototype.find`.
- `seqs.dfy` (`Seqs`): `filter`, `map` and the length of a filtered array as
  functions on sequences, with a subsequence relation and counting lemmas.
- `users.dfy` (`Users`): the `User` record, the seed table, and the table
  operations behind `find`, ban, delete, profile write-back and the two
  derived lists.
- `draft.dfy` (`Draft`): `String.prototype.trim`, with ECMAScript's
  whitespace and line-terminator code points, and the truthiness of its
  result.
- `viewmodel.dfy` (`ViewModel`): all state fields as one `ViewState` value,
  each handler as a transition function whose contract states what the
  handler does, the statistics, and lemmas relating the transitions (an
  invariant, idempotence, involutions).
- `store.dfy` (`Store`): class `ViewStore`, whose fields are the
  component's `useState` hooks. Its methods overwrite the fields one after
  another, as the handlers call their setters. The methods bound to inputs
  and dialogs each overwrite one field, and say so. Each handler method is proved to leave
  `State()` equal to the matching `ViewModel` transition of the old state.

Each handler is one atomic transition. The two clock reads of a login
(`Date.now().toString()` for the id and `new Date()` for the join date) are
parameters of `HandleAuth`. A `Date` is a `Timestamp`, an integer count of
milliseconds. The seed's `new Date('2024-01-01')` is `1704067200000`.

Points where the code's behaviour is easy to misread:

- `Submittable` (both fields non-empty, line 93) and `ProfileOf` (the profile
  form filled from a record, with `bio || ''` and `avatar || ''`, line 99)
  are plain definitions used in the contracts of `Auth` and `ApplyProfile`.
  They make no promises of their own.
- The code never checks that user ids are unique, so the model does not
  assume it. Ban, delete and profile write-back act on every entry with the
  given id.
- The admin pair adopts the first record whose id is `'admin'`, whatever its
  role. If no such record exists, the session still becomes authenticated and
  the current user keeps its old value.
- An absent `isBanned` flag reads as false (`IsBanned`). Toggling always
  writes an explicit flag. So two bans restore the flag's truth value, but
  restore the record itself only where the flag was already explicit
  (`BanTwice`).
- Saving the profile writes `bio` and `avatar` as present strings (possibly
  empty), built from the session user's copy rather than the table's.

## Model

| member | source | states |
|---|---|---|
| `Seqs.Filter` | src/pages/Index.tsx:142 | the result holds exactly the elements satisfying the predicate, in order: a subsequence of the input, whose length is the number of matching elements |
| `Seqs.Map` | src/pages/Index.tsx:136 | the result has the input's length and holds the function's value at every position |
| `Seqs.Count` | src/pages/Index.tsx:547 | a count never exceeds the sequence's length |
| `Users.Find` | src/pages/Index.tsx:96 | no result exactly when no record carries the id; otherwise the result carries the id and is the first such record of the table |
| `Users.BanToggled` | src/pages/Index.tsx:135-139 | keeps length and order; flips the flag's truth value exactly on the entries with the id and makes it explicit there; every other field and every other entry is unchanged |
| `Users.WithoutId` | src/pages/Index.tsx:141-143 | no entry carries the id; every other entry survives, in the original relative order; the length drops by exactly the number of matching entries |
| `Users.ReplaceById` | src/pages/Index.tsx:130 | keeps the length; entries with the id become the new record; all others are untouched; ids are kept when the new record has that id |
| `Users.RosterWithinAdminList` | src/pages/Index.tsx:410 | the online roster is a subsequence of the admin list, and none of its members is banned |
| `Users.ViewsExcludeCurrent` | src/pages/Index.tsx:502 | neither the admin list nor the roster contains a record with the session user's id |
| `Users.BanTwice` | src/pages/Index.tsx:135-139 | banning twice restores every flag's truth value, and the whole table when the targeted entries had explicit flags |
| `Users.BanKeepsTotalAndOnline` | src/pages/Index.tsx:547 | banning changes neither the table's size nor the number of online users |
| `Users.ReplaceByIdIdempotent` | src/pages/Index.tsx:130 | replacing by a record with the same id twice equals doing it once |
| `Draft.TrimStart` | src/pages/Index.tsx:81 | the result is a suffix of the input; everything removed is whitespace; the result does not start with whitespace |
| `Draft.TrimEnd` | src/pages/Index.tsx:81 | the result is a prefix of the input; everything removed is whitespace; the result does not end with whitespace |
| `Draft.HasContentIff` | src/pages/Index.tsx:81 | the trimmed draft is non-empty exactly when some character is not whitespace |
| `ViewModel.SendMessage` | src/pages/Index.tsx:80-85 | only the draft changes; a draft with a non-whitespace character is emptied; an all-whitespace draft leaves the state unchanged |
| `ViewModel.SendMessageIdempotent` | src/pages/Index.tsx:80-85 | a second send after a send changes nothing |
| `ViewModel.AddEmoji` | src/pages/Index.tsx:87-90 | the old draft is a prefix of the new one and the emoji is the rest; the picker is closed; nothing else changes |
| `ViewModel.ToggleTwice` | src/pages/Index.tsx:182 | toggling the auth mode twice, or the emoji picker (line 339) twice, restores the state |
| `ViewModel.SelectThenLeave` | src/pages/Index.tsx:289-291 | selecting a chat then leaving fullscreen (line 209) keeps that chat active, with fullscreen off |
| `ViewModel.NewUser` | src/pages/Index.tsx:103-110 | the new record has the given id, email and join date, role user, status online, is not banned, and has no avatar, bio, last-seen label or ban flag; its name is the form's name, or `'Пользователь'` when that is empty |
| `ViewModel.Auth` | src/pages/Index.tsx:92-118 | an empty email or password changes nothing; otherwise authenticated in every branch; only session fields and the table change; the table grows exactly for a non-admin pair; the admin pair keeps the table and adopts the first `'admin'` record with the profile form filled from it (bio and avatar defaulting to empty), or keeps the old session user if there is none; any other pair appends `NewUser` of the form, the new id and the join date at the end, adopts it, and sets the profile form to its name with empty bio and avatar |
| `ViewModel.AdminLoginFromInitial` | src/pages/Index.tsx:95-100 | from page load, the admin pair logs in as the seeded admin record (role admin), leaving the table as seeded |
| `ViewModel.ApplyProfile` | src/pages/Index.tsx:122-127 | reading the profile form back from the updated record gives the form; bio and avatar are stored as present strings; every other field of the record is unchanged |
| `ViewModel.SaveProfile` | src/pages/Index.tsx:120-133 | without a session user nothing changes; otherwise the session user takes name, bio and avatar from the form, keeping the rest; every entry with its id becomes that record; other entries and the length are kept; the modal closes; nothing else changes |
| `ViewModel.SaveProfileIdempotent` | src/pages/Index.tsx:120-133 | saving twice equals saving once |
| `ViewModel.BanUser` | src/pages/Index.tsx:135-139 | only the table changes; it keeps its length; each entry's flag is flipped exactly when its id matches, and made explicit there, with the rest of the entry unchanged; entries with another id stay identical |
| `ViewModel.DeleteUser` | src/pages/Index.tsx:141-143 | only the table changes; no entry has the id; the rest is a subsequence whose length drops by the number of matching entries |
| `ViewModel.Stats` | src/pages/Index.tsx:542-558 | the total is the table's size and the chat count is the chat list's length; the online count is the number of online users and the banned count the number of banned users, neither exceeding the total |
| `ViewModel.BanUserKeepsCounts` | src/pages/Index.tsx:542-547 | banning changes neither the total nor the online count |
| `ViewModel.DeleteUserCount` | src/pages/Index.tsx:141-143 | deleting lowers the total by the number of records carrying the id |
| `ViewModel.InitialCurrentListed` | src/pages/Index.tsx:54-68 | on page load the invariant "the session user has a table record" holds |
| `ViewModel.AuthKeepsCurrentListed` | src/pages/Index.tsx:92-118 | logging in keeps that invariant |
| `ViewModel.SaveProfileKeepsCurrentListed` | src/pages/Index.tsx:120-133 | saving the profile keeps that invariant |
| `ViewModel.BanUserKeepsCurrentListed` | src/pages/Index.tsx:135-139 | banning keeps that invariant |
| `ViewModel.DeleteOtherKeepsCurrentListed` | src/pages/Index.tsx:502-530 | deleting a user other than the session user, the only deletions the admin list offers, keeps that invariant |
| `Users.ToggleBan` | src/pages/Index.tsx:137 | the flag's truth value is negated and made explicit; every other field is kept |
| `Users.AdminList` | src/pages/Index.tsx:502 | a subsequence of the table holding every entry whose id is not the session user's, each as often as it occurs, and no other |
| `Users.OnlineRoster` | src/pages/Index.tsx:410 | a subsequence of the table holding every unbanned entry whose id is not the session user's, each as often as it occurs, and no other |
| `Draft.Trim` | src/pages/Index.tsx:81 | the result is a slice of the input with only whitespace before and after it, and neither starts nor ends with whitespace |
| `ViewModel.Initial` | src/pages/Index.tsx:45-72 | on page load the table holds one record, its `'admin'` record is the seed, nobody is logged in, the draft is empty, the auth screen is in login mode and cannot be submitted |
| `ViewModel.IsAdminPair` | src/pages/Index.tsx:95 | the admin pair always passes the non-empty gate |
| `ViewModel.SelectChat` | src/pages/Index.tsx:289-291 | the chat becomes active and the view fullscreen; nothing else changes |
| `ViewModel.LeaveFullscreen` | src/pages/Index.tsx:209 | fullscreen is off; nothing else changes |
| `ViewModel.ToggleAuthMode` | src/pages/Index.tsx:182 | the auth mode changes to the other one; nothing else changes |
| `ViewModel.ToggleEmojiPicker` | src/pages/Index.tsx:339 | the picker flag changes; nothing else changes |
| `Store.ViewStore.constructor` | src/pages/Index.tsx:45-72 | the fields start as the page-load state: nothing selected, an empty draft, closed dialogs, unauthenticated, login mode, empty forms, no session user, the seeded table, no chats |
| `Store.ViewStore.HandleSendMessage` | src/pages/Index.tsx:80-85 | the new state is the `SendMessage` transition of the old one |
| `Store.ViewStore.AddEmoji` | src/pages/Index.tsx:87-90 | the new state is the `AddEmoji` transition of the old one |
| `Store.ViewStore.HandleAuth` | src/pages/Index.tsx:92-118 | the new state is the `Auth` transition of the old one, for the given clock values |
| `Store.ViewStore.HandleSaveProfile` | src/pages/Index.tsx:120-133 | the new state is the `SaveProfile` transition of the old one |
| `Store.ViewStore.HandleBanUser` | src/pages/Index.tsx:135-139 | the new state is the `BanUser` transition of the old one |
| `Store.ViewStore.HandleDeleteUser` | src/pages/Index.tsx:141-143 | the new state is the `DeleteUser` transition of the old one |
| `Store.ViewStore.SelectChat` | src/pages/Index.tsx:289-291 | the chat becomes active and the view fullscreen; nothing else changes |
| `Store.ViewStore.LeaveFullscreen` | src/pages/Index.tsx:209 | fullscreen is switched off; nothing else changes |
| `Store.ViewStore.ToggleAuthMode` | src/pages/Index.tsx:182 | login and register mode swap; nothing else changes |
| `Store.ViewStore.ToggleEmojiPicker` | src/pages/Index.tsx:339 | the picker flag is negated; nothing else changes |
| `Store.ViewStore.EditDraft` | src/pages/Index.tsx:348 | the draft becomes the typed text; nothing else changes |
| `Store.ViewStore.EditAuthEmail` | src/pages/Index.tsx:167 | only the auth form's email changes |
| `Store.ViewStore.EditAuthPassword` | src/pages/Index.tsx:173 | only the auth form's password changes |
| `Store.ViewStore.EditAuthName` | src/pages/Index.tsx:160 | only the auth form's name changes |
| `Store.ViewStore.EditProfileName` | src/pages/Index.tsx:456 | only the profile form's name changes |
| `Store.ViewStore.EditProfileBio` | src/pages/Index.tsx:462 | only the profile form's bio changes |
| `Store.ViewStore.EditProfileAvatar` | src/pages/Index.tsx:469 | only the profile form's avatar changes |
| `Store.ViewStore.SetProfileModal` | src/pages/Index.tsx:439 | only the profile dialog flag changes (opened at line 245, cancelled at line 476) |
| `Store.ViewStore.SetAdminPanel` | src/pages/Index.tsx:485 | only the admin dialog flag changes (opened at line 254) |

## Left out

- Rendering: all JSX, the styling class strings, and the card, dialog, tabs, scroll-area, avatar and icon components. These are presentation and library code.
- The diagnostic `console.log` in `handleSendMessage` (line 82). Sending only clears the draft.
- The clock: `Date.now()` and `new Date()` (lines 104 and 108) are parameters of `HandleAuth`. No uniqueness of the generated ids is claimed, since the code does not enforce it.
- `formatTime` (lines 76-78). It depends on the locale and is never called.
- React's asynchronous, batched `setState`. Each handler is modelled as one atomic transition.
- The `chats` and `messages` collections. They are never changed, so the state keeps only the chat count used by the statistics (line 558). `messages` is never read.
- Reachability from page load: `chats` starts empty (line 71), so the chat click at lines 289-291 never runs. The active chat then stays unset and fullscreen stays off, and the composer (lines 306-381) never renders. So the picker toggle, `addEmoji` and `handleSendMessage` cannot be reached from page load. The model defines these transitions over every state and does not claim they are reachable.
- The search input (lines 268-271). It is bound to no state.
- The emoji palette (line 74). `AddEmoji` accepts any string, as `addEmoji` does. The page only passes palette entries.
- The hard-coded admin credentials are modelled as the literal comparison the code makes, not as an authentication mechanism.
- Dafny strings are sequences of Unicode code points, while JavaScript strings are sequences of UTF-16 code units. `trim` and `+` agree on well-formed text; lone surrogates are not modelled.
- The Unicode space-separator set in `Draft.IsWhitespace` is the fixed list of category Zs code points. It does not follow later Unicode versions.
