/** Values and string operations shared by the exam platform's modules:
    an optional value (TypeScript's `T | null | undefined`) and the JavaScript
    string methods the source relies on (toLowerCase, trim, includes, startsWith). */
module Common {

  datatype Option<T> = None | Some(value: T)

  /** JavaScript truthiness of an optional string: null, undefined and '' are falsy. */
  predicate Truthy(s: Option<string>) {
    s.Some? && |s.value| > 0
  }

  /** `a || b` on nullable strings: the first one if truthy, else the second. */
  function OrElse(a: Option<string>, b: Option<string>): (r: Option<string>)
    ensures Truthy(a) ==> r == a
    ensures !Truthy(a) ==> r == b
  {
    if Truthy(a) then a else b
  }

  /** `s ?? ''`: a missing string becomes the empty string. */
  function OrEmpty(s: Option<string>): (r: string)
    ensures s.Some? ==> r == s.value
    ensures s.None? ==> r == ""
  {
    match s
    case Some(v) => v
    case None => ""
  }

  // ---------------------------------------------------------------------------
  // toLowerCase

  predicate IsUpper(c: char) {
    ('A' <= c <= 'Z') || ('À' <= c <= 'Þ' && c != '×')
  }

  predicate IsLower(c: char) {
    ('a' <= c <= 'z') || ('à' <= c <= 'þ' && c != '÷')
  }

  /** Lower-cases the basic Latin and Latin-1 upper-case letters; every other
      character is returned unchanged. */
  function LowerChar(c: char): (r: char)
    ensures IsUpper(c) ==> IsLower(r) && r as int == c as int + 32
    ensures !IsUpper(c) ==> r == c
    ensures !IsUpper(r)
  {
    if IsUpper(c) then (c as int + 32) as char else c
  }

  function ToLower(s: string): (r: string)
    ensures |r| == |s|
    ensures forall i :: 0 <= i < |s| ==> r[i] == LowerChar(s[i])
  {
    if s == [] then [] else [LowerChar(s[0])] + ToLower(s[1..])
  }

  lemma ToLowerIdempotent(s: string)
    ensures ToLower(ToLower(s)) == ToLower(s)
  {
    var t := ToLower(s);
    assert forall i :: 0 <= i < |t| ==> !IsUpper(t[i]);
  }

  // ---------------------------------------------------------------------------
  // trim

  /** The characters ECMAScript's String.prototype.trim removes: WhiteSpace and
      LineTerminator. */
  predicate IsJsWhitespace(c: char) {
    c == '\t' || c == '\n' || c == '\U{000B}' || c == '\U{000C}' || c == '\r' || c == ' '
    || c == '\U{00A0}' || c == '\U{1680}' || ('\U{2000}' <= c <= '\U{200A}')
    || c == '\U{2028}' || c == '\U{2029}' || c == '\U{202F}' || c == '\U{205F}'
    || c == '\U{3000}' || c == '\U{FEFF}'
  }

  predicate AllWhitespace(s: string) {
    forall i :: 0 <= i < |s| ==> IsJsWhitespace(s[i])
  }

  function TrimStart(s: string): (r: string)
    ensures |r| <= |s| && r == s[|s| - |r|..]
    ensures r == [] || !IsJsWhitespace(r[0])
    ensures AllWhitespace(s[..|s| - |r|])
  {
    if s != [] && IsJsWhitespace(s[0]) then TrimStart(s[1..]) else s
  }

  function TrimEnd(s: string): (r: string)
    ensures |r| <= |s| && r == s[..|r|]
    ensures r == [] || !IsJsWhitespace(r[|r| - 1])
    ensures AllWhitespace(s[|r|..])
  {
    if s != [] && IsJsWhitespace(s[|s| - 1]) then TrimEnd(s[..|s| - 1]) else s
  }

  /** `s.trim()`. */
  function Trim(s: string): (r: string)
    ensures r == [] || (!IsJsWhitespace(r[0]) && !IsJsWhitespace(r[|r| - 1]))
  {
    TrimEnd(TrimStart(s))
  }

  /** A string trims to '' exactly when it consists of whitespace only. */
  lemma TrimEmptyIffBlank(s: string)
    ensures Trim(s) == [] <==> AllWhitespace(s)
  {
    if !AllWhitespace(s) {
      var a := TrimStart(s);
      var k :| 0 <= k < |s| && !IsJsWhitespace(s[k]);
      assert a[k - (|s| - |a|)] == s[k];
    }
  }

  lemma TrimIdempotent(s: string)
    ensures Trim(Trim(s)) == Trim(s)
  {
    var t := Trim(s);
    assert TrimStart(t) == t;
  }

  // ---------------------------------------------------------------------------
  // startsWith / includes

  predicate StartsWith(s: string, prefix: string) {
    |prefix| <= |s| && s[..|prefix|] == prefix
  }

  /** `s.includes(t)`. */
  predicate Includes(s: string, t: string) {
    StartsWith(s, t) || (|s| > |t| && Includes(s[1..], t))
  }

  /** `t` occurs in `s` starting at position `i`. */
  ghost predicate WindowAt(s: string, t: string, i: int) {
    0 <= i <= |s| - |t| && s[i..i + |t|] == t
  }

  lemma WindowShift(s: string, t: string, i: int)
    requires |s| > 0 && 1 <= i
    ensures WindowAt(s, t, i) <==> WindowAt(s[1..], t, i - 1)
  {
    if 0 <= i - 1 <= |s| - 1 - |t| {
      assert s[1..][i - 1..i - 1 + |t|] == s[i..i + |t|];
    }
  }

  /** `includes` holds exactly when some window of `s` equals `t`. */
  lemma {:induction false} IncludesIffWindow(s: string, t: string)
    ensures Includes(s, t) <==> exists i :: WindowAt(s, t, i)
  {
    if StartsWith(s, t) {
      assert WindowAt(s, t, 0);
    } else if |s| > |t| {
      IncludesIffWindow(s[1..], t);
      if Includes(s[1..], t) {
        var i :| WindowAt(s[1..], t, i);
        WindowShift(s, t, i + 1);
      } else {
        forall i | WindowAt(s, t, i)
          ensures false
        {
          if i > 0 {
            WindowShift(s, t, i);
          }
        }
      }
    }
  }

  lemma EmptyIncluded(s: string)
    ensures Includes(s, "")
  {
    assert s[0..0] == "";
  }
}
