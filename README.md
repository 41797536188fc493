# PIN lock screen view-model

A Dafny model of `PinLockScreenViewModel`, the view-model behind the PIN
lock screen of the Wasabi wallet's desktop GUI. An on-screen keypad edits a
text buffer. Every change of the buffer goes through two listeners:

- a success path that normalises the buffer, hashes it and, on a match with
  the parent lock screen's stored PIN hash, unlocks the parent and empties
  the buffer;
- a debounced failure path that hashes the raw buffer and shows a
  "PIN is incorrect!" notification when it does not match.

A third listener empties the buffer whenever the locked flag turns false.

Two modules:

- `Keypad` (`keypad.dfy`): the buffer as a nullable string (`Pin`), the
  keypad command as a pure function `KeyPad` with its `NullReference`
  outcome, the buffer after a sequence of presses (`Replay`), and lemmas
  about typing, clearing and backspacing.
- `LockScreen` (`lock_screen.dfy`): the class `PinLockScreenViewModel`. Its
  fields are the buffer, the parent's locked flag, the throttle's pending
  value, the shown notifications and the logged exceptions. Each reactive
  subscription becomes a method. The class invariant `Valid` says that a
  buffer that would unlock never stays in place: the success path clears it
  as soon as it appears.

The hash helper (`hash`) and the input normaliser (`correct`) are constant
function-valued fields supplied at construction. The only thing assumed of
the normaliser is that a null or white-space buffer normalises to the empty
string (`NormalisesBlank`).

Details of the code that the model keeps:

- The command appends any token other than `BACK` and `CLEAR`.
- The buffer starts out null.
- `BACK` on the null buffer throws a null-reference exception. The exception
  is logged and the buffer stays null.
- The success path hashes the normalised buffer. The failure path hashes the
  raw buffer.

## Model

| member | source | states |
|---|---|---|
| Keypad.KeyPad | WalletWasabi.Gui/Controls/LockScreen/PinLockScreenViewModel.cs:38-55 | Only BACK on the null buffer throws; every completed command leaves a non-null buffer; CLEAR gives the empty string; any other token keeps the old text as a prefix and is followed by exactly the token; BACK on a non-empty buffer removes exactly the last character; BACK on an empty buffer leaves it as it is |
| Keypad.ReplayConcat | WalletWasabi.Gui/Controls/LockScreen/PinLockScreenViewModel.cs:38-55 | Applying the command to two batches of keys in turn gives the same buffer as applying it to all the keys at once |
| Keypad.TypingConcatenates | WalletWasabi.Gui/Controls/LockScreen/PinLockScreenViewModel.cs:51-54 | Typing a sequence of plain tokens gives the old text, with null read as empty, followed by the tokens in typing order |
| Keypad.ClearForgetsHistory | WalletWasabi.Gui/Controls/LockScreen/PinLockScreenViewModel.cs:47-50 | Whatever was pressed before a CLEAR, the buffer afterwards depends only on the keys after it, replayed from the empty string |
| Keypad.BacksRemoveSuffix | WalletWasabi.Gui/Controls/LockScreen/PinLockScreenViewModel.cs:40-59 | On a non-null buffer, n presses of BACK remove exactly the last n characters, and extra presses beyond the length leave the empty string; on the null buffer every press throws and the buffer stays null |
| Keypad.BackUndoesEntry | WalletWasabi.Gui/Controls/LockScreen/PinLockScreenViewModel.cs:40-54 | Typing one character and then BACK restores the old text; a null buffer becomes the empty string |
| LockScreen.BlankIsSilent | WalletWasabi.Gui/Controls/LockScreen/PinLockScreenViewModel.cs:61-75 | A null or white-space buffer neither unlocks nor produces the wrong-PIN notification |
| LockScreen.PathsPartition | WalletWasabi.Gui/Controls/LockScreen/PinLockScreenViewModel.cs:61-84 | For a non-blank buffer that the normaliser leaves unchanged, the buffer unlocks exactly when it is not reported as wrong |
| LockScreen.PinLockScreenViewModel.constructor | WalletWasabi.Gui/Controls/LockScreen/PinLockScreenViewModel.cs:24-96 | The buffer starts null, or empty when the parent is already unlocked; the initial null value is held by the throttle; the invariant holds |
| LockScreen.PinLockScreenViewModel.SetPinInput | WalletWasabi.Gui/Controls/LockScreen/PinLockScreenViewModel.cs:26-30 | The buffer takes the new value; listeners are notified, and the throttle takes the value, only when the value differs |
| LockScreen.PinLockScreenViewModel.KeyPadCommand | WalletWasabi.Gui/Controls/LockScreen/PinLockScreenViewModel.cs:38-59 | The new buffer is the pure command's result, or unchanged when it throws; a thrown exception is counted as logged |
| LockScreen.PinLockScreenViewModel.TryUnlock | WalletWasabi.Gui/Controls/LockScreen/PinLockScreenViewModel.cs:73-84 | A buffer that unlocks leaves the parent unlocked and the buffer empty; any other buffer leaves the locked flag and the buffer unchanged; the invariant holds afterwards |
| LockScreen.PinLockScreenViewModel.OnUnlocked | WalletWasabi.Gui/Controls/LockScreen/PinLockScreenViewModel.cs:92-95 | Once the locked flag is false the buffer is the empty string |
| LockScreen.PinLockScreenViewModel.SetParentLocked | WalletWasabi.Gui/Controls/LockScreen/PinLockScreenViewModel.cs:86-95 | Setting the parent's flag, by any route, empties the buffer exactly when the flag goes from true to false, and otherwise leaves it as it was |
| LockScreen.PinLockScreenViewModel.Press | WalletWasabi.Gui/Controls/LockScreen/PinLockScreenViewModel.cs:38-84 | After a key press the parent is unlocked and the buffer empty when the typed buffer unlocks; otherwise the flag is unchanged and the buffer is the typed one; unlocking always leaves the buffer empty; the invariant is kept |
| LockScreen.PinLockScreenViewModel.Settle | WalletWasabi.Gui/Controls/LockScreen/PinLockScreenViewModel.cs:61-71 | When the throttle releases a value, one wrong-PIN notification is appended exactly when the buffer is non-blank and its raw hash differs from the stored hash; nothing else is shown; the invariant is kept |

## Left out

- Reactive plumbing is not modelled: `WhenAnyValue`, `ObserveOn` on the main-thread and task-pool schedulers, `ToProperty` and `CompositeDisposable`/`Dispose`. Each subscriber is a method, run synchronously in notification order. The delay between the parent's flag and its mirror is not modelled, nor is any interleaving of queued callbacks.
- The 2.5-second `Throttle` is modelled only as a pending flag. `Settle` stands for the moment the quiet period ends. Timing is not modelled.
- SHA-256 (`HashHelpers.GenerateSha256Hash`) is not part of this model. It is the parameter `hash`, and nothing is assumed about it, not even injectivity.
- `Guard.Correct` is not part of this model. It is the parameter `correct`. The only assumption is that a blank buffer normalises to the empty string.
- `Guard.NotNull` is not modelled: the parent always exists here. The parent is reduced to its PIN hash, a constant non-null string, and its locked flag.
- The `Logger.LogError` call is modelled as a count of logged exceptions, and `NotificationHelpers.Error` as a list of shown messages. Their I/O is left out.
- A null key token is not modelled: the keypad always sends a string.
- Strings are sequences of Unicode scalar values. The source removes one UTF-16 code unit on BACK, which differs only for characters outside the Basic Multilingual Plane.
- When the buffer is cleared, the success path runs again on the empty string. It is not modelled as a separate call: by the normaliser assumption it filters the empty string out.
