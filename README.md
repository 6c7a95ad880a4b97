# Queue ordering engine of the manager dashboard

This project models the part of the queue-management app's manager dashboard
(`frontend/src/pages/ManagerDashboad.jsx`) that keeps each queue's tokens in
order. A token is one waiting party, with an id, a name, the time it was
added and a 1-based position. Its id is either a number from the page's own
counter (tokens added on the page) or the backend's string `_id` (persons
loaded when a queue is selected). The handlers modelled are:

- `moveToTop`
- the drag-and-drop pair `handleDragStart` / `handleDrop`
- `addToQueue`
- `moveUp` and `moveDown`, which the page defines but wires to no control: each token card offers only Priority (`moveToTop`) and Cancel
- `serveNext`
- `cancelToken`
- the renumbering loop `forEach((token, idx) => token.position = idx + 1)` that follows every structural change
- the wait-time figures `getWaitTime` and `avgWaitTime`

The project has five modules:

- `Text`: the blank-name guard `!personName.trim()`, using JavaScript's white-space set.
- `Tokens`: the token record and `findIndex`. It also holds the facts about positions: a renumbered queue shows each of 1..n exactly once, and numbered means rising and in range. It also states the id invariant every queue keeps: unique ids, and no counter id that the counter has yet to issue.
- `Ordering`: one pure function per handler, giving the token array the handler leaves. Beside each function are the properties proved about it:
  - permutation, and the relative order of the others
  - where the moved token lands
  - inverse pairs (`moveUp` after `moveDown` and the reverse)
  - serving is cancelling the head
  - appending keeps the numbering
  - no handler breaks the id invariant
- `WaitAnalytics`: `Math.round` of a quotient as exact integer arithmetic, `getWaitTime`, the analytics counters and `avgWaitTime`.
- `Dashboard`: the component's state as a class `ManagerDashboard`, with the handlers as methods.
  - Each reordering or removing handler copies the token array into a fresh `array`. `moveUp` and `moveDown` swap in place on that array. The handler then runs the renumbering `while` loop and stores the array back.
  - Each reordering, removing or appending handler is proved to leave exactly the state the `Ordering` function gives, and every handler is proved to keep the class invariant, which includes the id invariant for every queue.
  - Scenario methods drive a dashboard through the use cases end to end.

Times are integer milliseconds. The clock (`new Date()`) is a `now` parameter.

## Model

| member | source | states |
|---|---|---|
| Text.Trim | frontend/src/pages/ManagerDashboad.jsx:205 | what `trim()` leaves is the stretch of the name between a blank prefix and a blank suffix, and neither starts nor ends with white space |
| Text.TrimCutsBlanks | frontend/src/pages/ManagerDashboad.jsx:205 | trimming keeps exactly what lies between the blank prefix `trimStart` drops and the blank suffix `trimEnd` drops |
| Text.TrimEmptyIffBlank | frontend/src/pages/ManagerDashboad.jsx:205 | `personName.trim()` is empty exactly when the name consists of JavaScript white space only (both directions) |
| Tokens.IndexOf | frontend/src/pages/ManagerDashboad.jsx:64 | `findIndex` gives -1 exactly when no token has the id; otherwise it gives an index holding the id with no earlier one holding it |
| Tokens.IndexOfUnique | frontend/src/pages/ManagerDashboad.jsx:239 | with unique ids, `findIndex` of the id at index k is k |
| Tokens.NumberedShowsOneToN | frontend/src/pages/ManagerDashboad.jsx:74 | after renumbering, the positions shown are exactly 1..n, each once |
| Tokens.NumberedIffRising | frontend/src/pages/ManagerDashboad.jsx:74 | a queue is numbered exactly when its positions rise strictly in service order and stay within 1..n |
| Tokens.SubIdsKeepWellFormed | frontend/src/pages/ManagerDashboad.jsx:300-302 | a queue whose ids occur at most as often as in a well-formed queue is well-formed too: rearranging or dropping tokens cannot create a duplicate id or a counter id not yet issued |
| Ordering.Renumbered | frontend/src/pages/ManagerDashboad.jsx:74 | the renumbering pass leaves position i+1 at index i and changes no id, name or time |
| Ordering.IdsRenumbered | frontend/src/pages/ManagerDashboad.jsx:74 | renumbering keeps the order of ids |
| Ordering.RenumberedFixesNumbered | frontend/src/pages/ManagerDashboad.jsx:74 | renumbering an already numbered queue changes nothing |
| Ordering.RemoveAt | frontend/src/pages/ManagerDashboad.jsx:68 | `splice(k, 1)` shortens by one, keeps the elements before k and shifts the ones after it down |
| Ordering.InsertAt | frontend/src/pages/ManagerDashboad.jsx:116 | `splice(k, 0, x)` puts x at k, keeps the elements before k and shifts the rest up |
| Ordering.MoveToFront | frontend/src/pages/ManagerDashboad.jsx:67-71 | `splice` then `unshift` keeps the length and puts element k first |
| Ordering.Reorder | frontend/src/pages/ManagerDashboad.jsx:114-116 | the two splices of a drop keep the length and put the taken element at the target index |
| Ordering.Swapped | frontend/src/pages/ManagerDashboad.jsx:243 | the destructuring swap exchanges the two entries and leaves every other one in place |
| Ordering.SpliceStart | frontend/src/pages/ManagerDashboad.jsx:115 | a `splice` start in range is used as is; a negative one counts from the end |
| Ordering.MoveToFrontPermutes | frontend/src/pages/ManagerDashboad.jsx:67-71 | `splice` then `unshift` puts element k first, keeps the rest in order and loses nothing (multiset) |
| Ordering.ReorderPermutes | frontend/src/pages/ManagerDashboad.jsx:114-116 | the two splices of a drop put the element at the drop index, keep the rest in order and lose nothing |
| Ordering.SwappedPermutes | frontend/src/pages/ManagerDashboad.jsx:243 | the destructuring swap is a permutation |
| Ordering.MoveToTopResult | frontend/src/pages/ManagerDashboad.jsx:64-74 | the array `moveToTop` leaves has the queue's length and keeps a numbered queue numbered |
| Ordering.MoveToTopNoOp | frontend/src/pages/ManagerDashboad.jsx:65 | `moveToTop` of the first token, or of an id not in the queue, changes nothing |
| Ordering.MoveToTopPromotes | frontend/src/pages/ManagerDashboad.jsx:62-80 | after `moveToTop(id)` the token is first, the others keep their relative order, the ids are a permutation, and positions are 1..n |
| Ordering.MoveToTopExample | frontend/src/pages/ManagerDashboad.jsx:62-80 | moving the third of three tokens to the top gives positions 1, 2, 3 to the third, first and second |
| Ordering.DropResult | frontend/src/pages/ManagerDashboad.jsx:104-119 | the array `handleDrop` leaves (as written, including the `splice(-1, 1)` of a missing id) has the queue's length and keeps a numbered queue numbered |
| Ordering.DropPlacesDragged | frontend/src/pages/ManagerDashboad.jsx:104-119 | a drop that passes the guards puts the dragged token at the drop index, keeps the others in relative order, permutes the ids and renumbers |
| Ordering.DropKeepsHead | frontend/src/pages/ManagerDashboad.jsx:111-119 | a drop of a token that is in the queue and not first never changes which token is first |
| Ordering.DropOfMissingTokenMovesLast | frontend/src/pages/ManagerDashboad.jsx:105-116 | as written: when the dragged id is no longer in the queue, `splice(-1, 1)` moves the last token to the drop index |
| Ordering.DropOfStaleHeadDemotesHead | frontend/src/pages/ManagerDashboad.jsx:98-116 | as written: a drop whose remembered id is the first token's moves that token to the drop index and makes the second token first |
| Ordering.GuardedDropResult | frontend/src/pages/ManagerDashboad.jsx:104-119 | the corrected drop, which also refuses an absent or first token, has the queue's length and keeps a numbered queue numbered |
| Ordering.GuardedDropKeepsHead | frontend/src/pages/ManagerDashboad.jsx:84 | corrected drop that also refuses a token that is absent or first: it never changes the first token and keeps the multiset of ids |
| Ordering.MoveUpResult | frontend/src/pages/ManagerDashboad.jsx:237-244 | the array `moveUp` leaves has the queue's length and keeps a numbered queue numbered |
| Ordering.MoveDownResult | frontend/src/pages/ManagerDashboad.jsx:252-259 | the array `moveDown` leaves has the queue's length and keeps a numbered queue numbered |
| Ordering.MoveUpNoOp | frontend/src/pages/ManagerDashboad.jsx:240 | `moveUp` of the first token or of an id not in the queue changes nothing |
| Ordering.MoveUpSwapsAt | frontend/src/pages/ManagerDashboad.jsx:242-244 | `moveUp` of the token found at k > 0 swaps the ids at k and k-1 and leaves the queue numbered |
| Ordering.MoveDownNoOp | frontend/src/pages/ManagerDashboad.jsx:255 | `moveDown` of the last token or of an id not in the queue changes nothing |
| Ordering.MoveDownSwapsAt | frontend/src/pages/ManagerDashboad.jsx:257-259 | `moveDown` of the token found at k < n-1 swaps the ids at k and k+1 and leaves the queue numbered |
| Ordering.MoveUpSwaps | frontend/src/pages/ManagerDashboad.jsx:237-250 | `moveUp` swaps the token with the one before it and renumbers; at the head or for an unknown id it changes nothing |
| Ordering.MoveDownSwaps | frontend/src/pages/ManagerDashboad.jsx:252-265 | `moveDown` swaps the token with the one after it and renumbers; at the tail or for an unknown id it changes nothing |
| Ordering.MoveUpUndoesMoveDown | frontend/src/pages/ManagerDashboad.jsx:237-265 | with unique ids, `moveUp` after `moveDown` of a token not last restores the queue (renumbered) |
| Ordering.MoveDownUndoesMoveUp | frontend/src/pages/ManagerDashboad.jsx:237-265 | with unique ids, `moveDown` after `moveUp` of a token not first restores the queue (renumbered) |
| Ordering.WithoutId | frontend/src/pages/ManagerDashboad.jsx:301 | `filter` keeps exactly the tokens with another id, never grows, and is the identity when the id is absent |
| Ordering.WithoutIdSubIds | frontend/src/pages/ManagerDashboad.jsx:301 | filtering never adds an id: each id occurs at most as often as before |
| Ordering.WithoutIdRemovesOne | frontend/src/pages/ManagerDashboad.jsx:301 | with unique ids, filtering out the id at index k removes exactly index k |
| Ordering.CancelResult | frontend/src/pages/ManagerDashboad.jsx:299-302 | the array `cancelToken` leaves is no longer than the queue and is numbered |
| Ordering.CancelRemovesToken | frontend/src/pages/ManagerDashboad.jsx:298-302 | with unique ids, cancelling removes exactly that token, keeps the others in order and renumbers 1..n |
| Ordering.CancelRemovesFound | frontend/src/pages/ManagerDashboad.jsx:299-302 | with unique ids, cancelling an id in the queue removes exactly the index `findIndex` finds and keeps the other ids in order |
| Ordering.CancelAbsentRenumbers | frontend/src/pages/ManagerDashboad.jsx:301-302 | cancelling an id not in the queue only renumbers |
| Ordering.CancelExample | frontend/src/pages/ManagerDashboad.jsx:298-302 | cancelling the second of three tokens leaves the first and third at positions 1 and 2 |
| Ordering.ServeResult | frontend/src/pages/ManagerDashboad.jsx:276-277 | the array `serveNext` leaves is one shorter than the queue and is numbered |
| Ordering.ServeRemovesHead | frontend/src/pages/ManagerDashboad.jsx:276-277 | serving drops exactly the head, keeps the others in order and renumbers 1..n |
| Ordering.ServeIsCancelOfHead | frontend/src/pages/ManagerDashboad.jsx:276-302 | with unique ids, serving leaves the same array as cancelling the head token |
| Ordering.NewToken | frontend/src/pages/ManagerDashboad.jsx:208-213 | the token `addToQueue` builds, appended, keeps a numbered queue numbered: its position is the old length + 1 |
| Ordering.AppendKeepsIds | frontend/src/pages/ManagerDashboad.jsx:208-223 | the new token's counter id is not in a well-formed queue, so appending it and advancing the counter keeps the id invariant |
| Ordering.MoveToTopKeepsIds | frontend/src/pages/ManagerDashboad.jsx:62-80 | `moveToTop` keeps the id invariant |
| Ordering.DropKeepsIds | frontend/src/pages/ManagerDashboad.jsx:104-119 | `handleDrop` keeps the id invariant, the `splice(-1, 1)` case included |
| Ordering.MoveUpKeepsIds | frontend/src/pages/ManagerDashboad.jsx:237-250 | `moveUp` keeps the id invariant |
| Ordering.MoveDownKeepsIds | frontend/src/pages/ManagerDashboad.jsx:252-265 | `moveDown` keeps the id invariant |
| Ordering.CancelKeepsIds | frontend/src/pages/ManagerDashboad.jsx:298-308 | `cancelToken` keeps the id invariant, whether or not the id is in the queue |
| Ordering.ServeKeepsIds | frontend/src/pages/ManagerDashboad.jsx:276-286 | `serveNext` keeps the id invariant |
| WaitAnalytics.RoundDiv | frontend/src/pages/ManagerDashboad.jsx:322 | `Math.round(n / d)` is the integer r with r - 1/2 <= n/d < r + 1/2 |
| WaitAnalytics.RoundDivUnique | frontend/src/pages/ManagerDashboad.jsx:322 | only one integer satisfies those rounding bounds |
| WaitAnalytics.RoundDivMonotone | frontend/src/pages/ManagerDashboad.jsx:322 | rounding is monotone in the numerator |
| WaitAnalytics.WaitTime | frontend/src/pages/ManagerDashboad.jsx:321-322 | the wait shown is the elapsed time in minutes rounded to the nearest: r - 1/2 <= elapsed / 60000 < r + 1/2 |
| WaitAnalytics.WaitTimeWholeMinutes | frontend/src/pages/ManagerDashboad.jsx:321-322 | a token added exactly m minutes ago shows m |
| WaitAnalytics.WaitTimeSign | frontend/src/pages/ManagerDashboad.jsx:321-322 | the wait shown is negative exactly when the clock is more than half a minute behind `addedAt` (no clamp) |
| WaitAnalytics.WaitTimeGrows | frontend/src/pages/ManagerDashboad.jsx:321-322 | a later clock never shows a shorter wait |
| WaitAnalytics.RecordServe | frontend/src/pages/ManagerDashboad.jsx:288-293 | one serve adds one to both served counters, keeping their difference, adds the wait to the total, and leaves the queue count alone |
| WaitAnalytics.RecordServeKeepsBounds | frontend/src/pages/ManagerDashboad.jsx:288-293 | recording a serve whose wait lies between lo and hi keeps the total between the served count times lo and times hi |
| WaitAnalytics.AvgWaitTime | frontend/src/pages/ManagerDashboad.jsx:326-328 | 0 while nothing is served; otherwise the mean wait in minutes, rounded to the nearest |
| WaitAnalytics.AverageAfterFirstServe | frontend/src/pages/ManagerDashboad.jsx:274-293 | after the first serve the average equals the served token's wait as `getWaitTime` shows it |
| WaitAnalytics.AverageBetweenExtremes | frontend/src/pages/ManagerDashboad.jsx:326-328 | if every served wait lies between lo and hi, the average lies between their rounded minutes |
| Dashboard.RecordFor | frontend/src/pages/ManagerDashboad.jsx:184-185 | `...prev[queueId]` starts from the queue's record, or from an empty record under that key when the page has none |
| Dashboard.ToArray | frontend/src/pages/ManagerDashboad.jsx:67 | `[...tokens]` is a fresh array with the same tokens |
| Dashboard.Swap | frontend/src/pages/ManagerDashboad.jsx:243 | the in-place destructuring swap exchanges two entries and nothing else |
| Dashboard.Renumber | frontend/src/pages/ManagerDashboad.jsx:74 | the renumbering loop leaves the array equal to the renumbered original |
| Dashboard.CopyRenumbered | frontend/src/pages/ManagerDashboad.jsx:114-119 | copying then renumbering yields the renumbered sequence |
| Dashboard.SwapRenumbered | frontend/src/pages/ManagerDashboad.jsx:242-244 | copy, swap, renumber yields the renumbered swap |
| Dashboard.ManagerDashboard.constructor | frontend/src/pages/ManagerDashboad.jsx:5-54 | the mounted page holds the loaded queues, no selection, counter 1, no drag, and analytics counting the queues |
| Dashboard.ManagerDashboard.SelectQueue | frontend/src/pages/ManagerDashboad.jsx:168-201 | selects the queue (the placeholder's empty id selects none) and stores the fetched persons, or none when the request failed, as the tokens under that key, creating a record when there is none; the invariant, unique ids included, is kept |
| Dashboard.ManagerDashboard.MoveToTop | frontend/src/pages/ManagerDashboad.jsx:62-80 | the selected queue's tokens become `MoveToTopResult`, so a token in the queue ends first; nothing else changes |
| Dashboard.ManagerDashboard.HandleDragStart | frontend/src/pages/ManagerDashboad.jsx:83-88 | remembers the dragged id and index except for the first card, which leaves the previous drag in place |
| Dashboard.ManagerDashboard.HandleDrop | frontend/src/pages/ManagerDashboad.jsx:95-129 | only a drop with a truthy remembered id, on a card, passing both guards stores `DropResult` and forgets the drag; every early return changes nothing |
| Dashboard.ManagerDashboard.AddToQueue | frontend/src/pages/ManagerDashboad.jsx:204-223 | refuses a blank name, then a missing selection, changing nothing; otherwise appends `NewToken` (the counter's id, position length+1) and advances the counter |
| Dashboard.ManagerDashboard.AppendNewToken | frontend/src/pages/ManagerDashboad.jsx:208-223 | past the guards: appends `NewToken` to the selected queue and advances the counter, keeping the invariant |
| Dashboard.ManagerDashboard.MoveUp | frontend/src/pages/ManagerDashboad.jsx:237-250 | the selected queue's tokens become `MoveUpResult`; nothing else changes |
| Dashboard.ManagerDashboard.MoveDown | frontend/src/pages/ManagerDashboad.jsx:252-265 | the selected queue's tokens become `MoveDownResult`; nothing else changes |
| Dashboard.ManagerDashboard.ServeNext | frontend/src/pages/ManagerDashboad.jsx:267-296 | with no selection or an empty queue nothing changes; otherwise it returns the head, stores `ServeResult`, counts one serve for the queue, and updates the analytics by `RecordServe` with the head's wait |
| Dashboard.ManagerDashboard.CancelToken | frontend/src/pages/ManagerDashboad.jsx:298-308 | the selected queue's tokens become `CancelResult`; when the id is in the queue exactly that token's id goes and the others keep their order; the served count is kept, and the token `find` reports is returned |
| Dashboard.JoinOneScenario | frontend/src/pages/ManagerDashboad.jsx:204-223 | one party joining a freshly selected empty queue gets counter id 1 and position 1 |
| Dashboard.JoinTwoScenario | frontend/src/pages/ManagerDashboad.jsx:204-223 | a second party then gets counter id 2 and position 2 |
| Dashboard.JoinInOrderScenario | frontend/src/pages/ManagerDashboad.jsx:204-223 | three parties joining an empty queue get counter ids 1, 2, 3 and positions 1, 2, 3 in arrival order, and the page counts the queue once |
| Dashboard.ServeOfThree | frontend/src/pages/ManagerDashboad.jsx:276-277 | serving the head of three numbered tokens leaves the other two at positions 1 and 2 |
| Dashboard.ServeInOrderScenario | frontend/src/pages/ManagerDashboad.jsx:267-296 | serving that queue returns the first party, renumbers the other two 1 and 2, counts one serve, and makes the average the first party's wait |
| Dashboard.RefusedDropScenario | frontend/src/pages/ManagerDashboad.jsx:83-112 | on a loaded queue [a, b, c], a drag of b dropped on the first card is refused and b stays remembered |
| Dashboard.ServeAfterRefusedDropScenario | frontend/src/pages/ManagerDashboad.jsx:83-112 | serving after that refused drop makes the still-remembered b the head |
| Dashboard.StaleDragScenario | frontend/src/pages/ManagerDashboad.jsx:83-129 | as written: after a refused drop on the first card and a serve, a later drop on the second card with no new drag start turns [b, c] into [c, b] |

## Left out

- Network and storage are left out:
  - the `axios` calls to the backend (loading queues and persons, saving and deleting persons)
  - `localStorage`
  - `alert`
  - the JSX rendering
  - `handleLogout`

  The backend's answer to `selectQueue` is a parameter (`fetched`, None for a failed request). The mount effect is the constructor, taking the loaded queues.
- `createQueue` is not modelled. It only adds an empty queue record after a backend call and is outside the ordering engine.
- `handleDragOver` is not modelled. It only sets browser drop effects.
- The DOM lookup of the drop target is not modelled. `closest('.card')` and the card's index among its siblings become the `dropCard` parameter: the token card's index, below the queue's length, or None for a drop on the list between token cards. Such a drop finds the enclosing "Current Queue" card, whose index among its siblings is 0, so the `dropIndex === 0` guard refuses it; the model refuses None directly.
- `new Date()` becomes a `now` parameter in milliseconds.
- Floating-point minutes are left out. The source divides by 60000 in floating point and accumulates minutes as floats. The model keeps milliseconds and applies `Math.round` to the exact quotient, so float rounding error is not modelled.
- Dashboard.ManagerDashboard.MoveDown: for an id not in a non-empty queue, the source swaps with `newTokens[-1]` and the renumbering then throws a TypeError before anything is stored. The model treats this as a no-op and does not model the exception.
- Dashboard.ManagerDashboard.CancelToken: for an id not in the queue, the source stores the renumbered queue and then throws when it reads `canceledToken.name`. The model stores the same queue and returns None instead of throwing.
- Tokens are values:
  - The renumbering loop writes `position` into token objects that the previous array still shares, because the copy is shallow.
  - That aliasing between old and new state is not modelled.
  - The copy that each handler renumbers is a fresh array of token values.
- `Dashboard.ManagerDashboard.HandleDrop` and `MoveToTop` rearrange the copied array with `splice`/`unshift`. These are modelled as the sequence functions `Reorder` and `MoveToFront`. Only the swaps of `moveUp`/`moveDown` and the renumbering loop run in place on the array.
- Token ids are `Counter(n)` for the page's own counter and `Stored(key)` for the backend's `_id` strings; a number never equals a string under `===`. The falsy test `!draggedItem` is modelled for the number 0 and the empty string.
- Dashboard.ManagerDashboard.SelectQueue: requires the fetched persons to carry distinct stored ids, as the backend's `_id`s are; the page does not check this, and a backend that returned duplicates is not modelled. With it, every queue keeps unique ids and the counter issues only numbers no token holds.
- Dashboard.ManagerDashboard.SelectQueue: the page sets the selection, awaits the request and only then stores the tokens, so a token added to that queue while the request is pending is overwritten by the fetched list. The model performs the selection and the store as one step.
- Dashboard.ManagerDashboard.SelectQueue: a falsy selection (null, or the placeholder's empty string) is modelled as None. For a key the page has no record under, the page's new record holds only `tokens`; the model fills in the key as id, an empty name, 0 as creation time and 0 served.
- The model follows the code:
  - The wait shown is `Math.round` of the elapsed minutes, with no clamp at zero. `WaitTimeSign` states when it is negative.
  - A drop's target index is the card's index, with no clamping to the queue length.
  - Whether the head slot may be reordered is decided by the code's guards: the first card cannot be dragged or dropped on. `GuardedDropResult` states the intended version.
- The backend (`backend/`) is not part of this model.

## Findings

| source | as written | input that shows it | evidently intended | confidence | as-written member | corrected member |
|---|---|---|---|---|---|---|
| frontend/src/pages/ManagerDashboad.jsx:98-128 | the early returns of `handleDrop` (own card, first card, including a drop between token cards) never clear `draggedItem`, and a later drop uses the stale id; when that id has become first, the head is moved, and when it has left the queue, `findIndex` gives -1 and `splice(-1, 1)` moves the last token | queue [a, b, c] loaded from the backend: drag token b and drop it on card 0 (refused), serve (queue [b, c]), then drop something dragged from outside the list on card 1: the queue becomes [c, b] | a drop never moves the first token and never acts on a token that has left the queue | not executed; medium (follows from the code paths) | Dashboard.StaleDragScenario | Ordering.GuardedDropKeepsHead |
