/** The page-wide keyboard guard: a capture-phase keydown listener, installed
    even before a submission exists, that cancels a fixed table of key
    combinations and reports each one. */
module GlobalKeyGuard {
  import opened Common

  datatype KeyEvent = KeyEvent(key: string, ctrlKey: bool, shiftKey: bool, altKey: bool)

  /** Letters that are forbidden with Ctrl+Shift (22 of the 26: not A, G, H, R). */
  const CtrlShiftLetters: seq<string> :=
    ["I", "J", "C", "X", "P", "M", "L", "K", "U", "E", "F", "D", "B", "O", "S", "V", "Y", "Z", "N", "T", "Q", "W"]

  /** Letters that are forbidden with Alt. The source writes one 46-entry
      list: 20 letters followed by the three letter rows of a QWERTY keyboard,
      so that some letters appear twice. */
  const AltLetters: seq<string> := AltLeadLetters + QwertyTop + QwertyHome + QwertyBottom

  const AltLeadLetters: seq<string> :=
    ["F", "E", "V", "H", "T", "N", "P", "S", "O", "L", "M", "K", "J", "I", "U", "D", "B", "C", "X", "Z"]
  const QwertyTop: seq<string> := ["Q", "W", "E", "R", "T", "Y", "U", "I", "O", "P"]
  const QwertyHome: seq<string> := ["A", "S", "D", "F", "G", "H", "J", "K", "L"]
  const QwertyBottom: seq<string> := ["Z", "X", "C", "V", "B", "N", "M"]

  /** Letters that are forbidden with Ctrl+Alt. */
  const CtrlAltLetters: seq<string> :=
    ["I", "J", "C", "K", "L", "M", "N", "O", "P", "Q", "R", "S", "T", "U", "V", "W", "X", "Y", "Z"]

  /** The forbidden-combination table, clause by clause. */
  predicate Forbidden(e: KeyEvent) {
    (e.ctrlKey && e.shiftKey && e.key in CtrlShiftLetters)
    || (e.ctrlKey && e.key == "Tab")
    || (e.altKey && e.key in AltLetters)
    || e.key == "F1"
    || e.key == "F11"
    || e.key == "F12"
    || (e.ctrlKey && e.key == "F12")
    || (e.ctrlKey && e.shiftKey && e.key == "F12")
    || (e.ctrlKey && e.altKey && e.key in CtrlAltLetters)
  }

  const ReasonPrefix := "Combinación de teclas sospechosa: "

  /** What the handler does: cancel the default action, stop propagation and
      report, or nothing at all. */
  datatype KeyReaction = KeyReaction(preventDefault: bool, stopPropagation: bool, report: Option<string>)

  function Handle(e: KeyEvent): (r: KeyReaction)
    ensures r.preventDefault <==> Forbidden(e)
    ensures r.stopPropagation <==> Forbidden(e)
    ensures r.report == if Forbidden(e) then Some(ReasonPrefix + e.key) else None
  {
    if Forbidden(e) then KeyReaction(true, true, Some(ReasonPrefix + e.key))
    else KeyReaction(false, false, None)
  }

  predicate IsUpperLetter(k: string) {
    |k| == 1 && 'A' <= k[0] <= 'Z'
  }

  /** The Alt list, repetitions aside, is exactly the alphabet A to Z. */
  lemma AltLettersAreAlphabet(k: string)
    ensures k in AltLetters <==> IsUpperLetter(k)
  {
    if IsUpperLetter(k) {
      UpperLetterOnKeyboard(k);
      assert AltLetters == AltLeadLetters + (QwertyTop + QwertyHome + QwertyBottom);
    } else if k in AltLetters {
      AltLettersUpper(k);
    }
  }

  /** Every upper-case letter is on one of the three QWERTY rows. */
  lemma UpperLetterOnKeyboard(k: string)
    requires IsUpperLetter(k)
    ensures k in QwertyTop + QwertyHome + QwertyBottom
  {
    var c := k[0];
    assert k == [c];
    if c in "QWERTYUIOP" {
      TopRow(c);
    } else if c in "ASDFGHJKL" {
      HomeRow(c);
    } else {
      BottomRow(c);
    }
  }

  lemma TopRow(c: char)
    requires c in "QWERTYUIOP"
    ensures [c] in QwertyTop
  {
    if c == 'Q' {
      assert [c] == QwertyTop[0];
    } else if c == 'W' {
      assert [c] == QwertyTop[1];
    } else if c == 'E' {
      assert [c] == QwertyTop[2];
    } else if c == 'R' {
      assert [c] == QwertyTop[3];
    } else if c == 'T' {
      assert [c] == QwertyTop[4];
    } else if c == 'Y' {
      assert [c] == QwertyTop[5];
    } else if c == 'U' {
      assert [c] == QwertyTop[6];
    } else if c == 'I' {
      assert [c] == QwertyTop[7];
    } else if c == 'O' {
      assert [c] == QwertyTop[8];
    } else if c == 'P' {
      assert [c] == QwertyTop[9];
    }
  }

  lemma HomeRow(c: char)
    requires c in "ASDFGHJKL"
    ensures [c] in QwertyHome
  {
    if c == 'A' {
      assert [c] == QwertyHome[0];
    } else if c == 'S' {
      assert [c] == QwertyHome[1];
    } else if c == 'D' {
      assert [c] == QwertyHome[2];
    } else if c == 'F' {
      assert [c] == QwertyHome[3];
    } else if c == 'G' {
      assert [c] == QwertyHome[4];
    } else if c == 'H' {
      assert [c] == QwertyHome[5];
    } else if c == 'J' {
      assert [c] == QwertyHome[6];
    } else if c == 'K' {
      assert [c] == QwertyHome[7];
    } else if c == 'L' {
      assert [c] == QwertyHome[8];
    }
  }

  lemma BottomRow(c: char)
    requires 'A' <= c <= 'Z' && c !in "QWERTYUIOPASDFGHJKL"
    ensures [c] in QwertyBottom
  {
    if c == 'Z' {
      assert [c] == QwertyBottom[0];
    } else if c == 'X' {
      assert [c] == QwertyBottom[1];
    } else if c == 'C' {
      assert [c] == QwertyBottom[2];
    } else if c == 'V' {
      assert [c] == QwertyBottom[3];
    } else if c == 'B' {
      assert [c] == QwertyBottom[4];
    } else if c == 'N' {
      assert [c] == QwertyBottom[5];
    } else if c == 'M' {
      assert [c] == QwertyBottom[6];
    }
  }

  lemma AltLettersUpper(k: string)
    requires k in AltLetters
    ensures IsUpperLetter(k)
  {
    assert k in AltLeadLetters || k in QwertyTop || k in QwertyHome || k in QwertyBottom;
  }

  /** Alt with any upper-case letter is forbidden. */
  lemma AltLetterForbidden(e: KeyEvent)
    requires e.altKey && IsUpperLetter(e.key)
    ensures Forbidden(e)
  {
    AltLettersAreAlphabet(e.key);
  }

  /** Ctrl+Shift with A, G, H or R is let through when Alt is not held. */
  lemma CtrlShiftGaps(e: KeyEvent)
    requires e.ctrlKey && e.shiftKey && !e.altKey
    requires e.key in ["A", "G", "H", "R"]
    ensures !Forbidden(e)
  {
  }

  /** F1, F11 and F12 are forbidden whatever the modifiers. */
  lemma FunctionKeysForbidden(e: KeyEvent)
    requires e.key in ["F1", "F11", "F12"]
    ensures Forbidden(e)
  {
  }

  /** Matching is case-sensitive: a single character that is not an upper-case
      letter (a lower-case letter, a digit) is never forbidden. */
  lemma NonUpperCharAllowed(e: KeyEvent)
    requires |e.key| == 1 && !('A' <= e.key[0] <= 'Z')
    ensures !Forbidden(e)
  {
    AltLettersAreAlphabet(e.key);
    assert forall k :: k in CtrlShiftLetters ==> IsUpperLetter(k);
    assert forall k :: k in CtrlAltLetters ==> IsUpperLetter(k);
  }

  /** Ctrl+Shift+I is forbidden and reported with its key. */
  lemma CtrlShiftIReported()
    ensures Handle(KeyEvent("I", true, true, false)) == KeyReaction(true, true, Some(ReasonPrefix + "I"))
  {
    assert "I" in CtrlShiftLetters;
  }

  // ---------------------------------------------------------------------------
  // Registration

  /** A window listener: event type, handler identity and capture flag. */
  datatype Listener = Listener(eventType: string, handler: nat, capture: bool)

  /** Installs the guard's handler for keydown in the capture phase. */
  function Mount(listeners: seq<Listener>, handler: nat): (r: seq<Listener>)
    ensures |r| == |listeners| + 1 && r[..|listeners|] == listeners
    ensures Listener("keydown", handler, true) in r
    ensures forall l :: l in r <==> l in listeners || l == Listener("keydown", handler, true)
  {
    listeners + [Listener("keydown", handler, true)]
  }

  /** `removeEventListener`: drops the listener with the same type, handler and flag. */
  function Remove(listeners: seq<Listener>, l: Listener): (r: seq<Listener>)
    ensures l !in r
    ensures forall x :: x in listeners && x != l ==> x in r
    ensures forall x :: x in r ==> x in listeners
  {
    if listeners == [] then []
    else (if listeners[0] == l then [] else [listeners[0]]) + Remove(listeners[1..], l)
  }

  /** Cleanup removes with the same capture flag, so it undoes the mount. */
  lemma {:induction false} UnmountUndoesMount(listeners: seq<Listener>, handler: nat)
    requires Listener("keydown", handler, true) !in listeners
    ensures Remove(Mount(listeners, handler), Listener("keydown", handler, true)) == listeners
  {
    RemoveAbsent(listeners, Listener("keydown", handler, true));
    RemoveAppend(listeners, [Listener("keydown", handler, true)], Listener("keydown", handler, true));
  }

  lemma {:induction false} RemoveAbsent(listeners: seq<Listener>, l: Listener)
    requires l !in listeners
    ensures Remove(listeners, l) == listeners
  {
    if listeners != [] {
      RemoveAbsent(listeners[1..], l);
    }
  }

  lemma {:induction false} RemoveAppend(a: seq<Listener>, b: seq<Listener>, l: Listener)
    ensures Remove(a + b, l) == Remove(a, l) + Remove(b, l)
  {
    if a != [] {
      assert (a + b)[1..] == a[1..] + b;
      RemoveAppend(a[1..], b, l);
    } else {
      assert a + b == b;
    }
  }
}
