/** The PIN lock screen view-model: the keypad buffer, the subscriber that
    unlocks the parent lock screen when the buffer hashes to the stored PIN
    hash, the debounced subscriber that reports a wrong PIN, and the
    subscriber that empties the buffer once the screen is unlocked.

    The reactive subscriptions become explicit methods, run in the order the
    property-change notifications would trigger them. The SHA-256 helper and
    the input normaliser are not part of this model: they are supplied as
    function-valued constants. */
module LockScreen {
  import opened Keypad

  /** The text of the notification shown for a wrong PIN. */
  const IncorrectPin: string := "PIN is incorrect!"

  /** The .NET notion of a white-space character: the space, line and
      paragraph separator categories, the controls U+0009 to U+000D, and
      U+0085. */
  predicate IsWhiteSpace(c: char) {
    ('\t' <= c <= '\r') || c == ' ' || c == '\U{85}' || c == '\U{A0}' ||
    c == '\U{1680}' || ('\U{2000}' <= c <= '\U{200A}') || c == '\U{2028}' ||
    c == '\U{2029}' || c == '\U{202F}' || c == '\U{205F}' || c == '\U{3000}'
  }

  /** A null buffer, or one holding only white space (the empty string too). */
  predicate IsNullOrWhiteSpace(p: Pin) {
    p.Null? || forall i :: 0 <= i < |p.s| ==> IsWhiteSpace(p.s[i])
  }

  /** The one property of the input normaliser this model relies on: a blank
      buffer normalises to the empty string. */
  ghost predicate NormalisesBlank(correct: Pin -> string) {
    forall p :: IsNullOrWhiteSpace(p) ==> correct(p) == ""
  }

  /** The success path's test: the normalised buffer is non-empty and its hash
      is the stored PIN hash. */
  predicate Unlocks(p: Pin, pinHash: string, hash: string -> string, correct: Pin -> string) {
    var x := correct(p);
    |x| != 0 && pinHash == hash(x)
  }

  /** The failure path's test: the raw buffer is not blank and its hash is not
      the stored PIN hash. */
  predicate ReportsIncorrect(p: Pin, pinHash: string, hash: string -> string) {
    !IsNullOrWhiteSpace(p) && pinHash != hash(p.s)
  }

  /** A blank buffer is never compared: it neither unlocks nor is reported. */
  lemma BlankIsSilent(p: Pin, pinHash: string, hash: string -> string, correct: Pin -> string)
    requires NormalisesBlank(correct)
    requires IsNullOrWhiteSpace(p)
    ensures !Unlocks(p, pinHash, hash, correct)
    ensures !ReportsIncorrect(p, pinHash, hash)
  {
  }

  /** On a buffer the normaliser leaves as it is, the two paths split the
      non-blank buffers exactly: each one either unlocks or is reported. */
  lemma PathsPartition(p: Pin, pinHash: string, hash: string -> string, correct: Pin -> string)
    requires p.Text? && correct(p) == p.s
    requires !IsNullOrWhiteSpace(p)
    ensures Unlocks(p, pinHash, hash, correct) <==> !ReportsIncorrect(p, pinHash, hash)
  {
  }

  class PinLockScreenViewModel {
    /** The keypad buffer; null until first assigned. */
    var pinInput: Pin
    /** The parent lock screen's locked flag, which this view-model mirrors. */
    var isLocked: bool
    /** A buffer value is waiting in the 2.5-second throttle of the failure path. */
    var pendingReport: bool
    /** Error notifications shown to the user, oldest first. */
    var notifications: seq<string>
    /** Exceptions thrown by the keypad command and logged. */
    var loggedErrors: nat
    /** The parent's stored PIN hash. */
    const pinHash: string
    /** The SHA-256 helper, from text to its hex digest. */
    const hash: string -> string
    /** The input normaliser applied on the success path. */
    const correct: Pin -> string

    /** Between notifications, a buffer that would unlock never stays put:
        the success path clears it as soon as it appears. */
    ghost predicate Valid()
      reads this
    {
      NormalisesBlank(correct) && !Unlocks(pinInput, pinHash, hash, correct)
    }

    /** Builds the view-model over a parent lock screen. Each subscription
        sees the current values first: the null buffer is filtered out of
        both hash paths, and an already unlocked parent empties the buffer. */
    constructor (pinHash: string, hash: string -> string, correct: Pin -> string, locked: bool)
      requires NormalisesBlank(correct)
      ensures Valid()
      ensures this.pinHash == pinHash && this.hash == hash && this.correct == correct
      ensures isLocked == locked
      ensures pinInput == if locked then Null else Text("")
      ensures pendingReport && notifications == [] && loggedErrors == 0
    {
      this.pinHash := pinHash;
      this.hash := hash;
      this.correct := correct;
      pinInput := Null;
      isLocked := locked;
      pendingReport := true;
      notifications := [];
      loggedErrors := 0;
      new;
      if !isLocked {
        OnUnlocked();
      }
    }

    /** Assigns the buffer and, when the value differs, notifies the
        subscribers: the failure path's throttle takes the new value. */
    method SetPinInput(v: Pin) returns (changed: bool)
      modifies this`pinInput, this`pendingReport
      ensures changed == (v != old(pinInput))
      ensures pinInput == v
      ensures pendingReport == (old(pendingReport) || changed)
    {
      changed := v != pinInput;
      if changed {
        pinInput := v;
        pendingReport := true;
      }
    }

    /** The keypad command. BACK on the never-assigned buffer throws, and the
        exception is logged. */
    method KeyPadCommand(arg: string) returns (thrown: bool)
      modifies this`pinInput, this`pendingReport, this`loggedErrors
      ensures thrown <==> KeyPad(old(pinInput), arg).NullReference?
      ensures pinInput == After(old(pinInput), arg)
      ensures loggedErrors == old(loggedErrors) + (if thrown then 1 else 0)
      ensures pendingReport == (old(pendingReport) || pinInput != old(pinInput))
    {
      thrown := false;
      var changed;
      if arg == Back {
        if pinInput.Null? {
          thrown := true;
          loggedErrors := loggedErrors + 1;
        } else if |pinInput.s| > 0 {
          changed := SetPinInput(Text(pinInput.s[..|pinInput.s| - 1]));
        }
      } else if arg == Clear {
        changed := SetPinInput(Text(""));
      } else {
        changed := SetPinInput(Text(Str(pinInput) + arg));
      }
    }

    /** The success path, run when the buffer changes: a normalised buffer
        that is non-empty and hashes to the stored hash unlocks the parent
        and empties the buffer. */
    method TryUnlock()
      requires NormalisesBlank(correct)
      modifies this`pinInput, this`isLocked, this`pendingReport
      ensures Valid()
      ensures Unlocks(old(pinInput), pinHash, hash, correct) ==>
        !isLocked && pinInput == Text("") && pendingReport
      ensures !Unlocks(old(pinInput), pinHash, hash, correct) ==>
        isLocked == old(isLocked) && pinInput == old(pinInput) && pendingReport == old(pendingReport)
    {
      var x := correct(pinInput);
      if |x| != 0 {
        if pinHash == hash(x) {
          var wasLocked := isLocked;
          isLocked := false;
          var changed := SetPinInput(Text(""));
          // the cleared buffer is announced again, and normalises to the
          // empty string, which the success path filters out
          if wasLocked {
            OnUnlocked();
          }
        }
      }
    }

    /** The subscriber to the locked flag: once it reads false, the buffer is
        emptied. */
    method OnUnlocked()
      requires NormalisesBlank(correct)
      requires !isLocked
      modifies this`pinInput, this`pendingReport
      ensures Valid()
      ensures pinInput == Text("")
      ensures pendingReport == (old(pendingReport) || old(pinInput) != Text(""))
    {
      var changed := SetPinInput(Text(""));
    }

    /** The parent's locked flag is set, by this view-model or by any other
        route; the mirrored flag only notifies on a change of value. */
    method SetParentLocked(locked: bool)
      requires Valid()
      modifies this`isLocked, this`pinInput, this`pendingReport
      ensures Valid()
      ensures isLocked == locked
      ensures pinInput == if old(isLocked) && !locked then Text("") else old(pinInput)
      ensures pendingReport == (old(pendingReport) || pinInput != old(pinInput))
    {
      if locked != isLocked {
        isLocked := locked;
        if !locked {
          OnUnlocked();
        }
      }
    }

    /** One key press, with the success path it triggers when it changes the
        buffer. */
    method Press(arg: string) returns (thrown: bool)
      requires Valid()
      modifies this`pinInput, this`isLocked, this`pendingReport, this`loggedErrors
      ensures Valid()
      ensures thrown <==> arg == Back && old(pinInput).Null?
      ensures loggedErrors == old(loggedErrors) + (if thrown then 1 else 0)
      ensures var typed := After(old(pinInput), arg);
        if Unlocks(typed, pinHash, hash, correct)
        then !isLocked && pinInput == Text("")
        else isLocked == old(isLocked) && pinInput == typed
      ensures old(isLocked) && !isLocked ==> pinInput == Text("")
      ensures pendingReport == (old(pendingReport) || After(old(pinInput), arg) != old(pinInput))
    {
      var before := pinInput;
      thrown := KeyPadCommand(arg);
      if pinInput != before {
        TryUnlock();
      }
    }

    /** The failure path, run when the throttle lets the last buffer value
        through: a non-blank buffer whose raw hash is not the stored hash
        shows the wrong-PIN notification. */
    method Settle() returns (reported: bool)
      requires Valid()
      modifies this`pendingReport, this`notifications
      ensures Valid()
      ensures reported == (old(pendingReport) && ReportsIncorrect(pinInput, pinHash, hash))
      ensures notifications == old(notifications) + (if reported then [IncorrectPin] else [])
      ensures !pendingReport
    {
      reported := false;
      if pendingReport {
        pendingReport := false;
        if !IsNullOrWhiteSpace(pinInput) && pinHash != hash(pinInput.s) {
          notifications := notifications + [IncorrectPin];
          reported := true;
        }
      }
    }
  }
}
