# PiN front-end core, modelled in Dafny

PiN is a photographers' social feed built with React on a hosted Postgres
store. This project models the front-end logic that decides what the user
sees:

- the threaded comment view: `buildCommentTree`, and the `useComments` hook
  that fetches, adds, deletes and edits comments;
- the post card: the optimistic like toggle with its rollback, and the
  card's inline comment thread;
- the avatar: size classes, initials, and the choice of placeholder;
- the role badge: role normalisation and badge labels;
- the role-resolution ladder that runs each time the session is read or changes;
- the profile settings page: filling the form from a profile, the username
  sanitiser, the image field/bucket/extension choice, the crop dialog and the
  photographer toggle.

Files and modules:

| file | modules |
|---|---|
| `js.dfy` | `Js`: nullable values, string truthiness, `||`, ASCII white space and case, `trim`, `split`/`join` |
| `comment_tree.dfy` | `CommentTree`: records, the forest, the builder and its reference definition `Spec`; `CommentTreeFacts`: what the forest contains |
| `gateway.dfy` | `Gateway`: the store calls and their replies |
| `comments_hook.dfy` | `UseComments`: the hook's state and callbacks |
| `post_card.dfy` | `LikeCounter`: the like/unlike step and its rollback; `PostCard`: the card's state and handlers |
| `avatar.dfy` | `Avatar` |
| `role_badge.dfy` | `RoleBadge` |
| `auth_session.dfy` | `AuthSession` |
| `profile_settings.dfy` | `ProfileSettings` |

How the model is built:

- The store is never called. Each handler takes the reply it would get as a
  parameter, so its contract covers every reply the store could give.
- The comments hook, the post card, the session provider and the settings
  page are classes whose fields are their state cells, and each logs the
  store requests it issues (selects, writes and uploads). The avatar's
  one-bit `error` flag is a parameter of `Avatar.ImageSource` instead.
- The comment tree builder is an imperative method with two loops. It is
  proved equal to `CommentTree.Spec`, a definition that filters the input by
  position. The lemmas in `CommentTreeFacts` then state the promised
  properties about `Spec`.
- JavaScript's nullable strings are `Option<string>`. A value is truthy when
  it is present and not empty.

Behaviour of the code that the model keeps as written:

- The hook's `addComment` and `editComment` send content as it is. Only the
  card's `handleAddComment` ignores blank input.
- `buildCommentTree` does not sort. Children and roots keep the order the
  query returns them in, which is by `created_at`.
- The card's `fetchComments` does not check the error. A failed select
  therefore leaves the card with no comments, while the hook keeps its old
  tree (`PostCard.NoDataEmptiesThread`).

## Model

| member | source | states |
|---|---|---|
| CommentTree.BuildCommentTree | src/hooks/useComments.js:10-30 | The two passes (a dictionary of fresh nodes, then one push per record) build exactly the forest `Spec` describes. |
| CommentTree.Positions | src/hooks/useComments.js:20-28 | The positions whose records land on a slot, ascending: each listed position lands there, and every landing position is listed. |
| CommentTreeFacts.EnumerationUnique | src/hooks/useComments.js:20-28 | Two ascending lists of the same positions are equal, so a slot's contents are determined by which records land there. |
| CommentTreeFacts.SlotMembership | src/hooks/useComments.js:20-28 | An id is on a slot exactly when some record with that id lands there. |
| CommentTreeFacts.SlotIsInputOrderFilter | src/hooks/useComments.js:20-28 | Any ascending list of exactly the landing positions yields the slot's ids, so each slot is an input-order filter. |
| CommentTreeFacts.RootsAreParentlessInInputOrder | src/hooks/useComments.js:20-27 | `roots` holds exactly the records with a falsy `parent_id`, in input order. |
| CommentTreeFacts.ChildrenArePointersInInputOrder | src/hooks/useComments.js:21-24 | The `children` of node `p` hold exactly the records whose `parent_id` is `p`, in input order. |
| CommentTreeFacts.RootMembership | src/hooks/useComments.js:25-27 | An id is a root if and only if some record with that id has no parent. |
| CommentTreeFacts.ChildMembership | src/hooks/useComments.js:21-24 | An id is a child of `p` if and only if some record with that id names `p` as its parent. |
| CommentTreeFacts.NodesCarryRecords | src/hooks/useComments.js:15-17 | Every record's id has a node. That node carries a record with the same id. With unique ids, the node carries that record itself. |
| CommentTreeFacts.NodeKeysAreInputIds | src/hooks/useComments.js:15-17 | The dictionary's keys are exactly the ids of the input. |
| CommentTreeFacts.OrphanDropped | src/hooks/useComments.js:21-25 | With unique ids, a record whose `parent_id` names no input record is in neither `roots` nor any `children`. |
| CommentTreeFacts.PlacedOnce | src/hooks/useComments.js:20-28 | With unique ids, a root is in `roots` and no `children` list. A reply to a present parent is only in that parent's `children`. |
| CommentTreeFacts.NoRepeats | src/hooks/useComments.js:20-28 | With unique ids, neither `roots` nor any `children` list repeats an id. |
| CommentTreeFacts.ScenarioThread | src/hooks/useComments.js:10-30 | For records 1, 3, 2→1 and 4→99, the roots are 1 then 3, node 1 has child 2, node 3 has none, and 4 is dropped. |
| Gateway.RowsOf | src/hooks/useComments.js:43 | `data \|\| []`: the rows when present, the empty list otherwise. |
| UseComments.AfterFetch | src/hooks/useComments.js:40-44 | An error keeps the old tree. Without an error, the result is the tree of the returned rows, or the empty forest when no data came back. |
| UseComments.CommentsHook.constructor | src/hooks/useComments.js:6-7 | `comments` starts empty and `loading` starts false, with nothing sent. |
| UseComments.CommentsHook.FetchComments | src/hooks/useComments.js:32-46 | Issues one select. On error `comments` is unchanged; otherwise it becomes the tree of `data \|\| []`. `loading` ends false. |
| UseComments.CommentsHook.AddComment | src/hooks/useComments.js:48-70 | Returns true exactly when there is a user and the insert succeeds. With no user it sends nothing. On failure `comments` is unchanged. On success it refetches. |
| UseComments.CommentsHook.DeleteComment | src/hooks/useComments.js:72-82 | Returns true exactly when the delete succeeds, and then refetches. On failure `comments` is unchanged. |
| UseComments.CommentsHook.EditComment | src/hooks/useComments.js:84-94 | Returns true exactly when the update succeeds, and then refetches. On failure `comments` is unchanged. |
| LikeCounter.Optimistic | src/components/PostCard.jsx:34-36 | Flips `liked` and moves the count by one, up exactly when the new state is liked. |
| LikeCounter.Rollback | src/components/PostCard.jsx:40-49 | Flips `liked` back and moves the count by one, down exactly when the state being undone is liked. |
| LikeCounter.RollbackUndoesOptimistic | src/components/PostCard.jsx:31-51 | A failed like or unlike restores exactly the state before the click. |
| LikeCounter.OptimisticUndoesRollback | src/components/PostCard.jsx:31-51 | The optimistic step and the rollback are mutually inverse. |
| LikeCounter.TwoClicksCancel | src/components/PostCard.jsx:34-36 | Two successful clicks leave `liked` and the count where they were. |
| PostCard.NoDataEmptiesThread | src/components/PostCard.jsx:97-104 | A select with no data gives the card an empty thread. |
| PostCard.PostCard.constructor | src/components/PostCard.jsx:11-16 | The initial cells; `likesCount` starts at `likes_count \|\| 0`. |
| PostCard.PostCard.HandleLike | src/components/PostCard.jsx:31-51 | With no user, nothing changes. Otherwise it sends an insert when liking and a delete when unliking, and shows the optimistic state during the call. It keeps that state on success and returns to the old state on error. |
| PostCard.PostCard.FetchComments | src/components/PostCard.jsx:97-104 | Issues one select and replaces `comments` by the tree of `data \|\| []`, error or not. |
| PostCard.PostCard.ToggleComments | src/components/PostCard.jsx:86-95 | From hidden: shows, fetches, and ends with the loading flag cleared. From shown: hides and keeps the comments. |
| PostCard.PostCard.HandleReply | src/components/PostCard.jsx:113-141 | With no user, nothing is sent. Otherwise it inserts the reply, and refetches only on success. |
| PostCard.PostCard.HandleAddComment | src/components/PostCard.jsx:106-111 | Blank input is ignored. Otherwise it posts the input as a root comment and clears it, whatever the insert's outcome. |
| PostCard.PostCard.HandleDeleteComment | src/components/PostCard.jsx:143-151 | Deletes, and refetches only on success. |
| PostCard.PostCard.HandleEditComment | src/components/PostCard.jsx:153-161 | Updates, and refetches only on success. |
| Js.BlankIffAllSpace | src/components/PostCard.jsx:108 | `!s.trim()` holds exactly when every character of `s` is white space. |
| Avatar.SizeClasses | src/components/Avatar.jsx:8-15 | The four named sizes map to their classes. Any other size gets the `md` classes. |
| Avatar.ImageSource | src/components/Avatar.jsx:28-32 | The placeholder is shown when `src` is falsy or the image failed to load; otherwise `src` is shown. |
| Avatar.GetInitials | src/components/Avatar.jsx:18-26 | A falsy name gives `?`. |
| Js.JoinSplit | src/components/Avatar.jsx:20-21 | Splitting a name on a character and joining with it gives the name back. |
| Js.SplitAtFirst | src/components/Avatar.jsx:20-23 | The first part of a split runs to the first separator. The remaining parts are the split of what follows. |
| Avatar.InitialsOfFirstTwoParts | src/components/Avatar.jsx:18-26 | A non-empty name's initials are the first characters of its first two space-separated parts, upper-cased, with empty parts giving nothing. So there are at most two. |
| Avatar.LeadingSpacesGiveNoInitials | src/components/Avatar.jsx:19-25 | A name starting with two spaces gives empty initials, not `?`. |
| RoleBadge.NormalizeRole | src/components/RoleBadge.jsx:4-6 | The result is one of three roles. It is photographer or admin exactly for those two spellings, and customer otherwise. |
| RoleBadge.NormalizeIdempotent | src/components/RoleBadge.jsx:4-6 | Normalising a normalised role changes nothing. |
| RoleBadge.UnrecognisedIsCustomer | src/components/RoleBadge.jsx:4-6 | Null, `ADMIN` and every other value give customer. |
| RoleBadge.RoleBadge | src/components/RoleBadge.jsx:2-38 | For each normalised role, the exact badge: admin gives Admin, or ADM titled Admin; photographer gives Photographer, or PHO titled Photographer; customer gives Customer, or CUS titled Customer. The first of each pair is for type `full`, the second for every other type. |
| RoleBadge.BadgeDependsOnNormalisedRole | src/components/RoleBadge.jsx:8-38 | The badge depends only on the normalised role and on whether the type is exactly `full`. |
| RoleBadge.BadgesNameTheRole | src/components/RoleBadge.jsx:8-38 | A mini badge's title is the full badge's label. Different roles get different badges. |
| AuthSession.Fallback | src/contexts/AuthContext.jsx:39 | The metadata role when it is truthy, else customer; never empty. |
| AuthSession.IsRealError | src/contexts/AuthContext.jsx:40 | No error and a PGRST116 error are not real errors. An error with no code, or with any other code, is. |
| AuthSession.ResolveRole | src/contexts/AuthContext.jsx:34-48 | The ladder, in order: timeout → fallback; error with a code other than PGRST116 → fallback; data → `data.role` verbatim; otherwise → fallback. |
| AuthSession.OnlyProfileRowsGiveEmptyRoles | src/contexts/AuthContext.jsx:34-48 | Only a usable profile row can give a null or empty role. Without one and without a metadata role, the role is customer. |
| AuthSession.ProfileRoleWins | src/contexts/AuthContext.jsx:40-44 | A row with a PGRST116 error still supplies the role. A row with any other error does not. A timeout behaves like an empty reply. |
| AuthSession.FallbackBadge | src/contexts/AuthContext.jsx:36-48 | Without a usable profile row, the badge is that of the metadata role, or customer. |
| AuthSession.AuthState.constructor | src/contexts/AuthContext.jsx:10-12 | `user` starts null and `loading` starts true, with no lookups. |
| AuthSession.AuthState.HandleSession | src/contexts/AuthContext.jsx:15-62 | With no session user, `user` becomes null. Otherwise `user` is the session user with `role` replaced by the resolved role. A rejected lookup leaves `user` unchanged. `loading` ends false on every path. |
| ProfileSettings.FormOf | src/pages/ProfileSettings.jsx:38-49 | Each falsy column becomes `''`, except `role`, which becomes customer. Truthy columns are copied. |
| ProfileSettings.SaveThenFetch | src/pages/ProfileSettings.jsx:38-49 | Saving a form and fetching it back gives the same form, unless its role is empty (that reads back as customer). |
| ProfileSettings.FormOfIsIdempotent | src/pages/ProfileSettings.jsx:38-49 | Filling the form from a row that a filled form produced changes nothing. |
| ProfileSettings.RemoveSpaces | src/pages/ProfileSettings.jsx:233 | No white space remains, every kept character comes from the input, and input without white space is unchanged. |
| ProfileSettings.RemoveSpacesAppend | src/pages/ProfileSettings.jsx:233 | White-space removal distributes over concatenation. |
| ProfileSettings.RemoveSpacesChar | src/pages/ProfileSettings.jsx:233 | A single character is dropped when it is white space and kept otherwise. With `RemoveSpacesAppend`, every other character is kept, in order. |
| ProfileSettings.SanitizeUsername | src/pages/ProfileSettings.jsx:233 | The result is the lower-case of the input with its white space removed. It has no white space and no upper-case letter. |
| ProfileSettings.SanitizeIsIdempotent | src/pages/ProfileSettings.jsx:233 | Sanitising a sanitised name changes nothing. |
| ProfileSettings.SanitizeCommutes | src/pages/ProfileSettings.jsx:233 | Lower-casing then dropping white space equals dropping white space then lower-casing. |
| ProfileSettings.FieldForKind | src/pages/ProfileSettings.jsx:66 | The field is `avatar_url` if and only if the kind is `avatar`; otherwise it is `cover_photo_url`. |
| ProfileSettings.Bucket | src/pages/ProfileSettings.jsx:82 | The bucket is `avatars` if and only if the field is the avatar; covers go to `covers`. |
| ProfileSettings.Extension | src/pages/ProfileSettings.jsx:80 | Never empty. An avatar always gets `png`; a cover with no name gets `jpg`. |
| ProfileSettings.CoverExtension | src/pages/ProfileSettings.jsx:80 | A cover's extension is the last `.`-separated part of its name when that part is not empty, and `jpg` when it is. |
| ProfileSettings.CoverExtensionAfterLastDot | src/pages/ProfileSettings.jsx:80 | Given the position of the last `.`, the extension is the text after it, or `jpg` when the name ends there. |
| ProfileSettings.CoverExtensionExamples | src/pages/ProfileSettings.jsx:80 | `a.png` gives `png`, `archive.tar.gz` gives `gz`, and `photo.` gives `jpg`. |
| Js.LastPartFollowsLastSep | src/pages/ProfileSettings.jsx:80 | The last part of a split is the suffix after the last separator, or the whole string when there is no separator. |
| ProfileSettings.WithImage | src/pages/ProfileSettings.jsx:100 | Only the named image field is replaced. |
| ProfileSettings.RoleForToggle | src/pages/ProfileSettings.jsx:280 | Photographer exactly when checked, customer otherwise, never admin. |
| ProfileSettings.ToggleSetsBadge | src/pages/ProfileSettings.jsx:280 | The role the toggle writes is one the role badge recognises as itself: Photographer when checked, Customer otherwise. |
| ProfileSettings.ProfileSettingsPage.constructor | src/pages/ProfileSettings.jsx:10-28 | The initial form has empty fields and role customer. Loading is on and the crop dialog is closed. |
| ProfileSettings.ProfileSettingsPage.FetchProfile | src/pages/ProfileSettings.jsx:30-51 | Issues one profile select for the user. A returned row fills the form; with no row the form is untouched. `loading` ends false. |
| ProfileSettings.ProfileSettingsPage.ChangeUsername | src/pages/ProfileSettings.jsx:233 | Only `username` changes, and it becomes the sanitised input. |
| ProfileSettings.ProfileSettingsPage.FileSelected | src/pages/ProfileSettings.jsx:59-73 | With no file, nothing changes. Otherwise the dialog opens on the picture, for the field the kind names. |
| ProfileSettings.ProfileSettingsPage.ImageUpload | src/pages/ProfileSettings.jsx:76-108 | With no file, nothing happens. Otherwise it uploads to the field's bucket under the user's id and the chosen extension. On success only that field takes the public URL; on failure the form is unchanged. |
| ProfileSettings.ProfileSettingsPage.HandleCropComplete | src/pages/ProfileSettings.jsx:110-117 | An upload starts only if a field was being cropped and there is a blob. Afterwards the dialog is closed and the image and field are cleared. |
| ProfileSettings.ProfileSettingsPage.HandleCancelCrop | src/pages/ProfileSettings.jsx:119-123 | The dialog is closed and the image and field are cleared, with no upload. |
| ProfileSettings.ProfileSettingsPage.ToggleRole | src/pages/ProfileSettings.jsx:272-280 | Offered only to non-admins. Only `role` changes, to the toggle's role, which is never admin. The checkbox then shows checked exactly when it was checked. |
| ProfileSettings.ProfileSettingsPage.Submit | src/pages/ProfileSettings.jsx:125-141 | Writes the whole form and reports whether the store accepted it. `saving` ends false. |

## Left out

- Store I/O (selects, inserts, updates, deletes, storage uploads, `getPublicUrl`, the realtime profile channel): replies are parameters; which reply comes is not modelled.
- The provider's `session` cell (src/contexts/AuthContext.jsx:11), which only the session and auth-change callbacks write, is not modelled; `HandleSession` takes the session as a parameter.
- The avatar's `onError` step, which sets its `error` flag, is not modelled as a state change; the flag is a parameter of `Avatar.ImageSource`.
- Timers and `Promise.race` in session handling: only which outcome won is a parameter (`AuthSession.RaceOutcome`); the auth subscription, the 5-second safety timeout and `getSession` are not modelled.
- Async interleaving: each handler runs to completion before the next starts; overlapping refetches and a stale `liked` read across two quick clicks are not modelled. In particular `handleCropComplete` starts the upload without awaiting it, so the dialog closes and the crop cells clear before the upload finishes; `HandleCropComplete` runs the upload first, which gives the same final state.
- Toasts, `console` output, `confirm()`, `e.preventDefault()`, and `Date.now()` in upload file names and cache-busting URLs (the public URL is taken as given, suffix included).
- The initial like lookup run in a `useState` initializer: the initial `liked` is a constructor parameter.
- The file reader: `FileSelected` takes the data URL the reader produces, or none when no file was picked; resetting the input's value is not modelled.
- The image cropper (canvas, blobs, aspect ratios), post creation, the `CommentItem` component and markup-only pages are not part of this model.
- String handling is ASCII: `toLowerCase`/`toUpperCase` map only `A`-`Z`/`a`-`z`, and white space is space, tab, line feed, carriage return, vertical tab and form feed; the Unicode white space of JavaScript's `\s` and `trim` is not modelled. Strings are sequences of characters, not UTF-16 code units: for a name part starting with a character outside the Basic Multilingual Plane (an emoji), `n[0]` in `getInitials` takes half a surrogate pair, while `Avatar.Head` takes the whole character.
- Avatar.InitialsOfFirstTwoParts: the bound of two characters holds for the ASCII case mapping only; JavaScript's `toUpperCase` can lengthen a string (`ß` becomes `SS`).
- Avatar.SizeClasses: dictionary lookups that hit an inherited object property (a size of `constructor`) are not modelled; such a size gets the `md` classes here.
- CommentTree.BuildCommentTree: ids that collide with inherited object properties (`constructor`, `__proto__`) are not modelled; the dictionary is a plain map.
- The card's copy of `buildCommentTree` (src/components/PostCard.jsx:64-84) is the same code as the hook's and is modelled by the same method, so their equality holds by construction.
- `getInitials` is defined but its result is not rendered by the component; it is modelled as written.
