# Sticky Chat session engine in Dafny

Sticky Chat is a small always-on-top window where two people take turns
writing into a shared, colour-coded chat history. This project models the
state behind the `StickyNoteChat` window in `sticky_chat.py`, and it proves
properties of that state. The state is:

- the two participant names;
- the fixed pair of colours;
- the index of the active speaker;
- the "always on top" flag;
- the chat history.

It also models the callbacks that change this state: sending a message,
changing the turn, clearing, renaming, toggling "always on top", and the
key filter on the message entry.

The model has three modules:

- `PyText` (`text.dfy`) models Python's `str.strip()`. That is the only
  test the window applies to user input, so it is modelled on the exact
  character set `str.isspace()` accepts. It is proved to remove exactly the
  surrounding whitespace, to be idempotent, and to give `""` exactly for
  all-whitespace text.
- `ChatSession` (`session.dfy`) holds the state as a `Session` value and
  each callback as a function from the old state to the new one. Its
  lemmas cover single steps and whole runs. `Run` applies any sequence of
  user actions. `RunAppendOnly` proves that, with no clear among them,
  every earlier history line keeps its place, text and colour slot.
- `StickyChat` (`sticky_chat.dfy`) holds the class `StickyNoteChat`. It
  keeps the same fields the Python object keeps, and each method updates
  them in place. `change_user_names` is a loop over the slots, as in the
  source. Every method is proved to do exactly what the matching
  `ChatSession` function does, and to leave every other field as it was.

The widgets are replaced by plain values:

- The message entry's text is a parameter of `AddMessage` and
  `EventFilter`. Its text after the call is returned.
- Each "Change User Name" dialog becomes an `(ok, text)` answer.
- The chat history is a sequence of `(line, colour slot)` pairs, where a
  line is `"name: message"`.

Three facts about the code shape the model:

- A line keeps the name its speaker had when it was sent
  (sticky_chat.py:96). A later rename changes only `users`
  (sticky_chat.py:130), so past lines are not relabelled. The model does
  not render lines by speaker index. `Walkthrough` proves that the second
  line keeps "User 2" after slot 1 is renamed.
- The appended text is the stripped entry text.
- A new name is stored as typed, surrounding whitespace included. Only
  the blank test uses its stripped form.

## Model

| member | source | states |
|---|---|---|
| `PyText.Strip` | sticky_chat.py:94 | the result is the slice of the input that starts after the leading whitespace and is followed only by whitespace; it is trimmed at both ends; it is empty exactly when the input is all whitespace |
| `PyText.StripPadded` | sticky_chat.py:94 | for any whitespace prefix and suffix around a trimmed string, stripping gives back exactly that string |
| `PyText.StripIdempotent` | sticky_chat.py:94 | stripping twice gives the same result as stripping once |
| `PyText.StripFixedIff` | sticky_chat.py:129 | stripping leaves a string unchanged if and only if it has no whitespace at either end, so a trimmed name passes the blank test as typed |
| `PyText.StripTrimmed` | sticky_chat.py:129 | a trimmed string is its own stripped form |
| `PyText.StripStart` | sticky_chat.py:94 | the index where the stripped text begins (the left scan of `Strip`, from index 0) lies within the string |
| `PyText.SkipLeading` | sticky_chat.py:94 | the index is the first one from the start point that does not hold whitespace, or the end of the string: everything before it from the start point is whitespace, and the character at it is not |
| `PyText.SkipTrailing` | sticky_chat.py:94 | the index is where the trailing whitespace of the range begins: everything from it to the range end is whitespace, and the character before it, if inside the range, is not |
| `ChatSession.Initial` | sticky_chat.py:13-16 | the initial session satisfies the session invariant (two users, index and all slots in {0,1}, the fixed colours), with an empty history, index 0 and the flag set |
| `ChatSession.FormatLine` | sticky_chat.py:96 | a line is the speaker's name, then the separator ": ", then the message, and nothing else |
| `ChatSession.AddMessage` | sticky_chat.py:93-98 | keeps the invariant; whitespace-only entry text leaves the session and the entry unchanged; any other text appends exactly one line with the active speaker's current name, the stripped text and the active slot, and empties the entry; nothing else changes |
| `ChatSession.AddMessageLine` | sticky_chat.py:94-98 | an accepted message grows the history by one line; that line carries the active slot, starts with the active name, and ends with the stripped, trimmed entry text |
| `ChatSession.SendTwiceAddsOnce` | sticky_chat.py:98 | because the entry is cleared, sending again right after an accepted message changes nothing |
| `ChatSession.ChangeTurn` | sticky_chat.py:100-101 | keeps the invariant, so the index stays in {0,1}; the index changes to the other slot; users, colours, flag and history do not change |
| `ChatSession.ChangeTurnTwice` | sticky_chat.py:101 | changing the turn twice restores the session |
| `ChatSession.ClearMessages` | sticky_chat.py:106-107 | the history is empty afterwards, whatever it held; users, colours, index and flag do not change |
| `ChatSession.RenamedSlot` | sticky_chat.py:129-130 | a slot takes the typed name, unstripped, exactly when OK was pressed and the text is not all whitespace; otherwise it keeps the old name |
| `ChatSession.RenamedUsers` | sticky_chat.py:127-130 | there is one name per slot, and each slot is decided by its own dialog answer |
| `ChatSession.ChangeUserNames` | sticky_chat.py:126-130 | keeps the invariant, so there are still two users; each name is replaced only when its answer is accepted, and then by the unstripped text; index, colours, flag and history do not change |
| `ChatSession.RenameKeepsHistory` | sticky_chat.py:126-130 | renaming leaves every history line as it was (past lines are not relabelled) and does not move the turn |
| `ChatSession.MenuLabel` | sticky_chat.py:118-123 | the caption is "Disable Always On Top" exactly when the flag is set, and "Enable Always On Top" exactly when it is not |
| `ChatSession.ToggleAlwaysOnTop` | sticky_chat.py:116-123 | the flag is negated; the caption is the menu label of the new flag, so "Disable Always On Top" when it is set and "Enable Always On Top" when it is not; nothing else changes |
| `ChatSession.ToggleTwice` | sticky_chat.py:117 | toggling twice restores the session, and the caption then matches the original flag |
| `ChatSession.EventFilter` | sticky_chat.py:83-91 | the event is consumed exactly for Return, Enter and Tab key presses; Return or Enter sends the entry and Tab changes the turn; any other event changes neither the session nor the entry |
| `ChatSession.Step` | sticky_chat.py:36-91 | any single user action keeps the invariant; every action except clear keeps the old history as a prefix of the new one |
| `ChatSession.Run` | sticky_chat.py:10-141 | any sequence of user actions from a valid session ends in a valid session, so every session reachable from `Initial` has two users, the fixed colours, an index in {0,1} and a slot in {0,1} on every line; the colours never change |
| `ChatSession.RunAppendOnly` | sticky_chat.py:96-97 | over any sequence of actions without a clear, the old history is a prefix of the new one, so earlier lines never change; the colours never change |
| `ChatSession.Walkthrough` | sticky_chat.py:93-107 | in a two-message conversation, the lines are attributed to "User 1" and "User 2" and to slots 0 and 1; renaming slot 1 changes only the names and leaves both lines as they were; clearing then empties the history |
| `ChatSession.WalkthroughLines` | sticky_chat.py:96 | for the words "hi" and "hello", the two lines read "User 1: hi" and "User 2: hello" |
| `StickyChat.StickyNoteChat.constructor` | sticky_chat.py:10-16 | the names are "User 1" and "User 2"; the index is 0; the colours are "#ADD8E6" and "#FFD700"; the flag is set; the history is empty |
| `StickyChat.StickyNoteChat.AddMessage` | sticky_chat.py:93-98 | the fields and the returned entry text are exactly those of `ChatSession.AddMessage`; users, index, colours and flag are unchanged; the old history is a prefix of the new one |
| `StickyChat.StickyNoteChat.ChangeTurn` | sticky_chat.py:100-101 | the index becomes 1 minus the old index and stays in {0,1}; every other field is unchanged |
| `StickyChat.StickyNoteChat.ClearMessages` | sticky_chat.py:106-107 | the history becomes empty; every other field is unchanged |
| `StickyChat.StickyNoteChat.ChangeUserNames` | sticky_chat.py:126-130 | the in-place loop over the slots leaves two names; each is the typed text exactly when its answer is accepted, otherwise the old name; every other field is unchanged |
| `StickyChat.StickyNoteChat.ToggleAlwaysOnTop` | sticky_chat.py:116-123 | the flag is negated; the returned caption is the menu label of the new flag, "Disable Always On Top" when it is set and "Enable Always On Top" when it is not; every other field is unchanged |
| `StickyChat.Conversation` | sticky_chat.py:93-130 | on a fresh window, after a first message, a turn change, any rename and a second message, the history has two lines: the first is "User 1: " and the stripped first message with slot 0, whatever the rename did, and the second is slot 1's name after the rename, ": " and the stripped second message, with slot 1 |
| `StickyChat.StickyNoteChat.EventFilter` | sticky_chat.py:83-91 | the method does exactly what `ChatSession.EventFilter` does; it reports the event handled exactly for Return, Enter and Tab; on any other event no field changes |

## Left out

- Qt widget construction, layouts, fonts, style sheets, window title and geometry (sticky_chat.py:20-81) are presentation, done by a library outside this model.
- Window flags and re-showing the window (sticky_chat.py:23, 119, 122, 124) are not modelled; only the flag and the menu caption are.
- The "Current User" label and the turn button text (sticky_chat.py:45-47, 66, 102-104, 131-132) are not modelled. The label always reads "Current User: " followed by `users[current_user_index]`, in colour `user_colors[current_user_index]`. The turn button reads "Change Turn [TAB]" until the first turn change or rename, and "Change Turn [TAB] (Current: <name>)" after that. Neither changes the state.
- The HTML `<div>` wrapper and background colour of a line (sticky_chat.py:96) are not modelled. Qt's rendering of appended HTML is outside this model. A history line is the plain `"name: message"` text plus its colour slot. Markup typed into a message is therefore not interpreted.
- Reading the entry with `toPlainText` and clearing it (sticky_chat.py:94, 98) become a parameter and a returned string. Typing into the entry is not modelled.
- `export_messages` (sticky_chat.py:109-114) is left out. It is a save-file dialog and a file write.
- `QInputDialog.getText` and its prompt text (sticky_chat.py:128) are replaced by an input answer per slot.
- `main` and the Qt event loop (sticky_chat.py:134-141) are left out. `ChatSession.Run` stands for the callbacks arriving one after another.
- `ChatSession.EventFilter`: events the filter does not consume are handed to the base class's `eventFilter`. This model takes that call to return false and to change no session state; the base class is Qt code outside this model.
