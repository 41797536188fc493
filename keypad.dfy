/** The keypad half of the PIN lock screen: the text buffer that the on-screen
    keypad edits, one key token at a time.

    The buffer is a .NET string property that starts out null (it is never
    initialised), so it is modelled as a nullable text. */
module Keypad {

  /** The token the backspace key sends. */
  const Back: string := "BACK"
  /** The token the clear key sends. */
  const Clear: string := "CLEAR"

  /** The PIN input buffer: null until the first assignment, then a string. */
  datatype Pin = Null | Text(s: string)

  /** The text a buffer contributes to a concatenation: .NET string
      concatenation reads a null operand as the empty string. */
  function Str(p: Pin): string {
    match p
    case Null => ""
    case Text(s) => s
  }

  /** A token that the command handler appends rather than interprets. */
  predicate IsEntry(arg: string) {
    arg != Back && arg != Clear
  }

  /** What one keypad command does to the buffer: it assigns a new value
      (possibly the same one), or it throws because BACK reads the length of a
      null buffer. The thrown exception is only logged. */
  datatype KeyOutcome = Assigned(pin: Pin) | NullReference

  /** The keypad command handler. */
  function KeyPad(p: Pin, arg: string): (r: KeyOutcome)
    // only BACK on the never-assigned buffer throws
    ensures r.NullReference? <==> arg == Back && p.Null?
    // once a command completes, the buffer is a string, never null again
    ensures r.Assigned? ==> r.pin.Text?
    // CLEAR empties the buffer whatever it held
    ensures arg == Clear ==> r == Assigned(Text(""))
    // any other token is appended: the old text is kept as a prefix and the
    // token follows it, nothing is removed
    ensures IsEntry(arg) ==>
      r.Assigned? && |r.pin.s| == |Str(p)| + |arg| &&
      r.pin.s[..|Str(p)|] == Str(p) && r.pin.s[|Str(p)|..] == arg
    // BACK on a non-empty buffer drops exactly its last character
    ensures arg == Back && p.Text? && |p.s| > 0 ==>
      r.Assigned? && |r.pin.s| == |p.s| - 1 && r.pin.s + [p.s[|p.s| - 1]] == p.s
    // BACK on an empty buffer leaves it as it is
    ensures arg == Back && p == Text("") ==> r == Assigned(p)
  {
    if arg == Back then
      match p
      case Null => NullReference
      case Text(s) => if |s| > 0 then Assigned(Text(s[..|s| - 1])) else Assigned(p)
    else if arg == Clear then
      Assigned(Text(""))
    else
      Assigned(Text(Str(p) + arg))
  }

  /** The buffer after one command: a command that threw leaves it untouched. */
  function After(p: Pin, arg: string): Pin {
    match KeyPad(p, arg)
    case Assigned(q) => q
    case NullReference => p
  }

  /** The buffer after a whole sequence of key presses, in order. */
  function Replay(p: Pin, keys: seq<string>): Pin
    decreases |keys|
  {
    if keys == [] then p else Replay(After(p, keys[0]), keys[1..])
  }

  /** The texts of the given tokens, joined in order. */
  function Concat(keys: seq<string>): string
    decreases |keys|
  {
    if keys == [] then "" else keys[0] + Concat(keys[1..])
  }

  /** n presses of the backspace key. */
  function Backs(n: nat): seq<string>
  {
    if n == 0 then [] else [Back] + Backs(n - 1)
  }

  function Min(a: nat, b: nat): nat { if a <= b then a else b }

  /** Pressing keys in two batches is pressing them all in one. */
  lemma {:induction false} ReplayConcat(p: Pin, a: seq<string>, b: seq<string>)
    ensures Replay(p, a + b) == Replay(Replay(p, a), b)
    decreases |a|
  {
    if a != [] {
      assert (a + b)[0] == a[0];
      assert (a + b)[1..] == a[1..] + b;
      ReplayConcat(After(p, a[0]), a[1..], b);
    } else {
      assert a + b == b;
    }
  }

  /** Typing plain tokens produces the old text followed by the tokens in the
      order they were typed; a null buffer counts as empty. */
  lemma {:induction false} TypingConcatenates(p: Pin, keys: seq<string>)
    requires forall i :: 0 <= i < |keys| ==> IsEntry(keys[i])
    ensures Replay(p, keys) == if keys == [] then p else Text(Str(p) + Concat(keys))
    decreases |keys|
  {
    if keys != [] {
      assert IsEntry(keys[0]);
      var q := After(p, keys[0]);
      assert q == Text(Str(p) + keys[0]);
      TypingConcatenates(q, keys[1..]);
      if keys[1..] != [] {
        assert Str(q) + Concat(keys[1..]) == Str(p) + (keys[0] + Concat(keys[1..]));
      }
    }
  }

  /** CLEAR forgets everything typed before it. */
  lemma {:induction false} ClearForgetsHistory(p: Pin, before: seq<string>, after: seq<string>)
    ensures Replay(p, before + [Clear] + after) == Replay(Text(""), after)
  {
    ReplayConcat(p, before + [Clear], after);
    ReplayConcat(p, before, [Clear]);
  }

  /** n backspaces remove exactly the last n characters; backspaces beyond the
      length of the text leave it empty. On the never-assigned buffer every
      backspace throws, so it stays null. */
  lemma {:induction false} BacksRemoveSuffix(p: Pin, n: nat)
    ensures Replay(p, Backs(n)) ==
      match p
      case Null => Null
      case Text(s) => Text(s[..|s| - Min(n, |s|)])
    decreases n
  {
    if n > 0 {
      assert Backs(n)[0] == Back && Backs(n)[1..] == Backs(n - 1);
      match p
      case Null =>
        assert After(p, Back) == p;
        BacksRemoveSuffix(p, n - 1);
      case Text(s) =>
        if |s| > 0 {
          var t := s[..|s| - 1];
          assert After(p, Back) == Text(t);
          BacksRemoveSuffix(Text(t), n - 1);
          assert t[..|t| - Min(n - 1, |t|)] == s[..|s| - Min(n, |s|)];
        } else {
          assert After(p, Back) == p;
          BacksRemoveSuffix(p, n - 1);
        }
    }
  }

  /** Backspace undoes a single typed character; from the null buffer the
      result is the empty string, not null. */
  lemma BackUndoesEntry(p: Pin, c: char)
    ensures Replay(p, [[c], Back]) == Text(Str(p))
  {
    assert |[c]| == 1 && |Back| == 4 && |Clear| == 5;
    var q := After(p, [c]);
    assert q == Text(Str(p) + [c]);
    var r := After(q, Back);
    assert r == Text(Str(p));
    assert [[c], Back][0] == [c] && [[c], Back][1..] == [Back];
    assert [Back][0] == Back && [Back][1..] == [];
    assert Replay(q, [Back]) == Replay(r, []);
  }
}
