/** The editor-level protections of an answer editor: key blocking for the
    Monaco code editor and for plain text areas, the collapse of multi-line
    selections, and a once-a-second poll that reports browser extensions and
    open developer tools and undoes content changes the editor did not see. */
module SecurityMeasures {
  import opened Common

  /** The kind of element being protected. */
  datatype EditorKind = Monaco | Textarea | Markdown

  /** A key press as the handlers see it: the key's name, its key code and the
      modifier flags. The text-area handler reads the name; the Monaco handler
      reads the code, which Monaco reports in its own `KeyCode` numbering. */
  datatype KeyPress = KeyPress(key: string, keyCode: int, ctrlKey: bool, shiftKey: bool, metaKey: bool)

  // ---------------------------------------------------------------------------
  // Key blocking

  /** The codes the Monaco handler compares against: the browser's legacy key
      codes of C, V, X and A (copy, paste, cut and select-all) ... */
  const ClipboardCodes: seq<int> := [67, 86, 88, 65]
  /** ... of I, J and C (the developer-tools shortcuts with Shift) ... */
  const InspectorCodes: seq<int> := [73, 74, 67]
  /** ... and of F12. */
  const F12Code := 123

  /** The Monaco handler, first test: Ctrl or Meta with code 67, 86, 88 or 65. */
  predicate MonacoClipboardShortcut(e: KeyPress) {
    (e.ctrlKey || e.metaKey) && e.keyCode in ClipboardCodes
  }

  /** The Monaco handler, second test: code 123, or Ctrl/Meta+Shift with code
      73, 74 or 67. */
  predicate MonacoInspectorShortcut(e: KeyPress) {
    e.keyCode == F12Code || ((e.ctrlKey || e.metaKey) && e.shiftKey && e.keyCode in InspectorCodes)
  }

  const ClipboardKeys: seq<string> := ["c", "v", "x", "a"]
  const InspectorKeys: seq<string> := ["i", "j", "c"]

  /** The text-area handler, first test: Ctrl or Meta with c, v, x or a in
      either case. */
  predicate TextClipboardShortcut(e: KeyPress) {
    (e.ctrlKey || e.metaKey) && ToLower(e.key) in ClipboardKeys
  }

  /** The text-area handler, second test: the key 'F12' exactly, or
      Ctrl/Meta+Shift with i, j or c in either case. */
  predicate TextInspectorShortcut(e: KeyPress) {
    e.key == "F12" || ((e.ctrlKey || e.metaKey) && e.shiftKey && ToLower(e.key) in InspectorKeys)
  }

  /** Whether the element's keydown handler cancels the key press, as written.
      Monaco tests key codes; text areas and Markdown panes test key names. */
  function KeyBlocked(kind: EditorKind, e: KeyPress): (blocked: bool)
    ensures kind == Monaco ==> (blocked <==> MonacoClipboardShortcut(e) || MonacoInspectorShortcut(e))
    ensures kind != Monaco ==> (blocked <==> TextClipboardShortcut(e) || TextInspectorShortcut(e))
    ensures !e.ctrlKey && !e.metaKey ==> (blocked <==> (if kind == Monaco then e.keyCode == F12Code else e.key == "F12"))
  {
    match kind
    case Monaco => MonacoClipboardShortcut(e) || MonacoInspectorShortcut(e)
    case _ => TextClipboardShortcut(e) || TextInspectorShortcut(e)
  }

  /** Monaco's `KeyCode` numbering: the letters A to Z are 31 to 56 and F12 is 70. */
  function MonacoLetterCode(c: char): (code: int)
    requires 'A' <= c <= 'Z'
    ensures 31 <= code <= 56
  {
    31 + (c as int - 'A' as int)
  }

  const MonacoF12Code := 70

  /** A letter key as both handlers see it: the key name is the letter, upper
      or lower case, and the key code is Monaco's code for the letter. */
  predicate LetterPress(e: KeyPress, c: char) {
    'A' <= c <= 'Z' && e.keyCode == MonacoLetterCode(c) && (e.key == [c] || e.key == [LowerChar(c)])
  }

  lemma LowerOfLetter(c: char)
    requires 'A' <= c <= 'Z'
    ensures ToLower([c]) == [LowerChar(c)] && ToLower([LowerChar(c)]) == [LowerChar(c)]
  {
  }

  /** As written, the Monaco handler blocks no letter press and not F12: none of
      the codes it compares against is a letter's or F12's code in Monaco's
      numbering. */
  lemma MonacoShortcutsMissed(e: KeyPress, c: char, ctrl: bool, shift: bool, meta: bool)
    requires LetterPress(e, c)
    ensures !KeyBlocked(Monaco, e)
    ensures !KeyBlocked(Monaco, KeyPress("F12", MonacoF12Code, ctrl, shift, meta))
  {
    assert e.keyCode !in ClipboardCodes && e.keyCode !in InspectorCodes;
  }

  /** Ctrl+C: the text-area handler blocks it, the Monaco handler lets it through. */
  lemma MonacoCopyNotBlocked()
    ensures var e := KeyPress("c", MonacoLetterCode('C'), true, false, false);
      KeyBlocked(Textarea, e) && !KeyBlocked(Monaco, e)
  {
    var e := KeyPress("c", MonacoLetterCode('C'), true, false, false);
    MonacoShortcutsMissed(e, 'C', false, false, false);
    LowerOfLetter('C');
    assert ToLower(e.key) == "c" == ClipboardKeys[0];
  }

  /** The Monaco handler as evidently intended: the same shortcuts, tested on
      Monaco's codes for C, V, X and A, for I, J and C, and for F12. */
  function IntendedKeyBlocked(kind: EditorKind, e: KeyPress): (blocked: bool)
    ensures kind != Monaco ==> blocked == KeyBlocked(kind, e)
    ensures kind == Monaco && !e.ctrlKey && !e.metaKey ==> (blocked <==> e.keyCode == MonacoF12Code)
  {
    match kind
    case Monaco =>
      var clipboard := [MonacoLetterCode('C'), MonacoLetterCode('V'), MonacoLetterCode('X'), MonacoLetterCode('A')];
      var inspector := [MonacoLetterCode('I'), MonacoLetterCode('J'), MonacoLetterCode('C')];
      ((e.ctrlKey || e.metaKey) && e.keyCode in clipboard)
      || e.keyCode == MonacoF12Code || ((e.ctrlKey || e.metaKey) && e.shiftKey && e.keyCode in inspector)
    case _ => KeyBlocked(kind, e)
  }

  /** With the intended Monaco handler, both handlers block the same letter
      presses, whatever the case of the letter and whichever modifiers are held. */
  lemma LetterBlockingAgrees(e: KeyPress, c: char)
    requires LetterPress(e, c)
    ensures IntendedKeyBlocked(Monaco, e) <==> KeyBlocked(Textarea, e)
  {
    LowerOfLetter(c);
    var l := LowerChar(c);
    assert ToLower(e.key) == [l];
    var clipboard := [MonacoLetterCode('C'), MonacoLetterCode('V'), MonacoLetterCode('X'), MonacoLetterCode('A')];
    var inspector := [MonacoLetterCode('I'), MonacoLetterCode('J'), MonacoLetterCode('C')];
    assert [l] in ClipboardKeys <==> e.keyCode in clipboard;
    assert [l] in InspectorKeys <==> e.keyCode in inspector;
  }

  /** With the intended Monaco handler, F12 is blocked by every editor whatever
      the modifiers. */
  lemma F12BlockedEverywhere(kind: EditorKind, ctrl: bool, shift: bool, meta: bool)
    ensures IntendedKeyBlocked(kind, KeyPress("F12", if kind == Monaco then MonacoF12Code else F12Code, ctrl, shift, meta))
  {
  }

  /** The text-area handler ignores the case of the key name, except for the
      name 'F12', which it compares as written. */
  lemma TextBlockingIgnoresCase(e: KeyPress)
    requires e.key != "F12"
    ensures KeyBlocked(Textarea, e) <==> KeyBlocked(Textarea, e.(key := ToLower(e.key)))
  {
    ToLowerIdempotent(e.key);
    if |e.key| > 0 {
      assert !IsUpper(ToLower(e.key)[0]);
    }
  }

  // ---------------------------------------------------------------------------
  // Selection collapse

  datatype Selection = Selection(startLineNumber: int, startColumn: int, endLineNumber: int, endColumn: int)

  /** The cursor-selection handler: a selection spanning several lines is
      replaced by an empty one at the start of its first line. Returns the
      selection it sets, if any. */
  function CollapseSelection(s: Selection): (set_: Option<Selection>)
    ensures set_.Some? <==> s.startLineNumber != s.endLineNumber
    ensures set_.Some? ==> set_.value == Selection(s.startLineNumber, 1, s.startLineNumber, 1)
  {
    if s.startLineNumber != s.endLineNumber then
      Some(Selection(s.startLineNumber, 1, s.startLineNumber, 1))
    else None
  }

  /** The selection in force once the handler has run. */
  function SelectionAfter(s: Selection): Selection {
    match CollapseSelection(s)
    case Some(t) => t
    case None => s
  }

  /** The selection the handler leaves is on one line, and it is the original
      line; a single-line selection is left alone. */
  lemma SelectionAfterIsSingleLine(s: Selection)
    ensures SelectionAfter(s).startLineNumber == SelectionAfter(s).endLineNumber == s.startLineNumber
    ensures s.startLineNumber == s.endLineNumber ==> SelectionAfter(s) == s
  {
  }

  /** The handler's own `setSelection` raises the selection event again; that
      second run sets nothing, so the handler does not feed itself. */
  lemma CollapseSettles(s: Selection)
    ensures CollapseSelection(SelectionAfter(s)).None?
    ensures SelectionAfter(SelectionAfter(s)) == SelectionAfter(s)
  {
    SelectionAfterIsSingleLine(s);
  }

  // ---------------------------------------------------------------------------
  // Polling

  /** What the poll reads from the window: the extension markers of the three
      browser families and the window heights. */
  datatype Environment = Environment(
    chromeRuntimeId: Option<string>,
    browserRuntimeId: Option<string>,
    safariBaseUri: Option<string>,
    outerHeight: int,
    innerHeight: int)

  /** `chrome?.runtime?.id || browser?.runtime?.id || safari?.extension?.baseURI`
      taken as a condition: some marker is a non-empty string. */
  predicate ExtensionPresent(env: Environment) {
    Truthy(env.chromeRuntimeId) || Truthy(env.browserRuntimeId) || Truthy(env.safariBaseUri)
  }

  /** The poll's developer-tools test, on heights only and with threshold 200. */
  predicate DevtoolsOpen(env: Environment) {
    env.outerHeight - env.innerHeight > 200
  }

  /** The Monaco model holds something other than the last content the
      change listener recorded. */
  predicate Tampered(kind: EditorKind, model: Option<string>, lastContent: string) {
    kind == Monaco && model.Some? && model.value != lastContent
  }

  const ExtensionEvent := "browser-extension"
  const DevtoolsEvent := "devtools-open"
  const ManipulationEvent := "content-manipulation"

  /** The `fraud-detected` events one poll dispatches, in dispatch order. */
  function PollEvents(kind: EditorKind, env: Environment, model: Option<string>, lastContent: string): (r: seq<string>)
    ensures ExtensionEvent in r <==> ExtensionPresent(env)
    ensures DevtoolsEvent in r <==> DevtoolsOpen(env)
    ensures ManipulationEvent in r <==> Tampered(kind, model, lastContent)
    ensures forall x :: x in r ==> x in [ExtensionEvent, DevtoolsEvent, ManipulationEvent]
    ensures forall i, j :: 0 <= i < j < |r| ==> r[i] != r[j]
  {
    (if ExtensionPresent(env) then [ExtensionEvent] else [])
    + (if DevtoolsOpen(env) then [DevtoolsEvent] else [])
    + (if Tampered(kind, model, lastContent) then [ManipulationEvent] else [])
  }

  /** The model after the poll: a tampered model is set back to the last
      recorded content; otherwise it is left as it is. */
  function RestoredModel(kind: EditorKind, model: Option<string>, lastContent: string): (m: Option<string>)
    ensures Tampered(kind, model, lastContent) ==> m == Some(lastContent)
    ensures !Tampered(kind, model, lastContent) ==> m == model
    ensures !Tampered(kind, m, lastContent)
  {
    if Tampered(kind, model, lastContent) then Some(lastContent) else model
  }

  /** The developer-tools report is level-triggered: over a run of polls it is
      dispatched once for every poll whose heights are over the threshold. */
  function DevtoolsReports(kind: EditorKind, polls: seq<Environment>, model: Option<string>, lastContent: string): nat {
    if polls == [] then 0
    else
      (if DevtoolsEvent in PollEvents(kind, polls[0], model, lastContent) then 1 else 0)
      + DevtoolsReports(kind, polls[1..], RestoredModel(kind, model, lastContent), lastContent)
  }

  function OverThreshold(polls: seq<Environment>): nat {
    if polls == [] then 0 else (if DevtoolsOpen(polls[0]) then 1 else 0) + OverThreshold(polls[1..])
  }

  lemma {:induction false} DevtoolsReportedOnEveryPoll(kind: EditorKind, polls: seq<Environment>, model: Option<string>, lastContent: string)
    ensures DevtoolsReports(kind, polls, model, lastContent) == OverThreshold(polls)
  {
    if polls != [] {
      DevtoolsReportedOnEveryPoll(kind, polls[1..], RestoredModel(kind, model, lastContent), lastContent);
    }
  }

  /** Developer tools left open for `n` polls are reported `n` times. */
  lemma {:induction false} SustainedDevtoolsReportedEachTime(kind: EditorKind, polls: seq<Environment>, model: Option<string>, lastContent: string)
    requires forall i :: 0 <= i < |polls| ==> DevtoolsOpen(polls[i])
    ensures DevtoolsReports(kind, polls, model, lastContent) == |polls|
  {
    if polls != [] {
      SustainedDevtoolsReportedEachTime(kind, polls[1..], RestoredModel(kind, model, lastContent), lastContent);
    }
  }

  /** The guard attached to one answer editor. */
  class EditorGuard {
    const kind: EditorKind
    /** `lastContentRef`: the last content the change listener recorded. */
    var lastContent: string
    /** The editor model's value; `None` when the editor has no model. */
    var model: Option<string>

    constructor (kind: EditorKind, model: Option<string>)
      ensures this.kind == kind && this.model == model && lastContent == ""
    {
      this.kind := kind;
      this.model := model;
      lastContent := "";
    }

    /** Something writes the editor's model. */
    method SetModel(v: string)
      modifies this`model
      ensures model == Some(v)
    {
      model := Some(v);
    }

    /** The content-change listener, installed on Monaco editors only: it
        records the model's current value. */
    method OnDidChangeModelContent()
      modifies this`lastContent
      ensures kind == Monaco && model.Some? ==> lastContent == model.value
      ensures !(kind == Monaco && model.Some?) ==> lastContent == old(lastContent)
      ensures !Tampered(kind, model, lastContent)
    {
      if kind == Monaco && model.Some? {
        lastContent := model.value;
      }
    }

    /** One run of the one-second interval. A restored model raises the
        content-change listener again, which records the value it already has. */
    method Poll(env: Environment) returns (events: seq<string>)
      modifies this`model
      ensures events == PollEvents(kind, env, old(model), lastContent)
      ensures model == RestoredModel(kind, old(model), lastContent)
      ensures ManipulationEvent in events ==> model == Some(lastContent)
    {
      events := [];
      if ExtensionPresent(env) {
        events := events + [ExtensionEvent];
      }
      if DevtoolsOpen(env) {
        events := events + [DevtoolsEvent];
      }
      if kind == Monaco && model.Some? {
        var currentValue := model.value;
        if currentValue != lastContent {
          model := Some(lastContent);
          events := events + [ManipulationEvent];
        }
      }
    }
  }

  /** An edit the change listener has seen is never undone: after it, a poll
      reports no manipulation and leaves the model as it is. */
  lemma ObservedEditSurvivesPoll(env: Environment, v: string)
    ensures ManipulationEvent !in PollEvents(Monaco, env, Some(v), v)
    ensures RestoredModel(Monaco, Some(v), v) == Some(v)
  {
  }

  /** A model that already holds text when the guard starts, and has not been
      edited since, is reset to the empty string by the first poll. */
  lemma UneditedContentResetByFirstPoll(env: Environment, v: string)
    requires v != ""
    ensures ManipulationEvent in PollEvents(Monaco, env, Some(v), "")
    ensures RestoredModel(Monaco, Some(v), "") == Some("")
  {
  }

  /** Text areas and Markdown panes have no model check: a poll never reports
      or restores content for them. */
  lemma NoContentCheckOutsideMonaco(kind: EditorKind, env: Environment, model: Option<string>, lastContent: string)
    requires kind != Monaco
    ensures ManipulationEvent !in PollEvents(kind, env, model, lastContent)
    ensures RestoredModel(kind, model, lastContent) == model
  {
  }
}
