/** The exam editor's question list: normalising the rows the server
    returns, mapping the designer's question type to and from the stored
    spelling, and removing a question from the list. */
module QuestionsPanel {
  import opened Common

  /** A question row as the server returns it; any field may be missing. */
  datatype RawQuestion = RawQuestion(id: int, text: Option<string>, questionType: Option<string>, language: Option<string>)

  /** A question as the panel keeps it. */
  datatype Question = Question(id: int, text: string, questionType: string, language: string)

  /** `normalizePregunta`: a missing text, type or language becomes ''. */
  function NormalizeQuestion(p: RawQuestion): (q: Question)
    ensures q.id == p.id
    ensures p.text.Some? ==> q.text == p.text.value
    ensures p.text.None? ==> q.text == ""
    ensures p.questionType.Some? ==> q.questionType == p.questionType.value
    ensures p.questionType.None? ==> q.questionType == ""
    ensures p.language.Some? ==> q.language == p.language.value
    ensures p.language.None? ==> q.language == ""
  {
    Question(p.id, OrEmpty(p.text), OrEmpty(p.questionType), OrEmpty(p.language))
  }

  /** The designer's two question types. */
  datatype QuestionType = Text | Code

  /** `normalizeQuestionType`: 'CODE' exactly when the stored type, lower-cased
      and trimmed, is 'code'; 'TEXT' for everything else. */
  function NormalizeQuestionType(stored: string): (t: QuestionType)
    ensures t == Code <==> Trim(ToLower(stored)) == "code"
  {
    if Trim(ToLower(stored)) == "code" then Code else Text
  }

  /** `toDatabaseType`: the lower-cased name of the type. */
  function ToDatabaseType(t: QuestionType): (s: string)
    ensures s == ToLower(if t == Code then "CODE" else "TEXT")
  {
    match t
    case Code => "code"
    case Text => "text"
  }

  /** A word of lower-case letters has nothing to trim. */
  lemma TrimOfWord(s: string)
    requires |s| > 0 && forall i :: 0 <= i < |s| ==> 'a' <= s[i] <= 'z'
    ensures Trim(s) == s
  {
    assert TrimStart(s) == s;
  }

  /** A type survives being saved and read back for editing. */
  lemma TypeRoundTrip(t: QuestionType)
    ensures NormalizeQuestionType(ToDatabaseType(t)) == t
  {
    var s := ToDatabaseType(t);
    assert ToLower(s) == s by {
      assert forall i :: 0 <= i < |s| ==> !IsUpper(s[i]);
    }
    TrimOfWord(s);
  }

  /** The list after a confirmed delete: every entry with that id is removed. */
  function WithoutQuestion(qs: seq<Question>, id: int): (r: seq<Question>)
    ensures |r| <= |qs|
    ensures forall q :: q in r <==> q in qs && q.id != id
  {
    if qs == [] then []
    else
      assert forall q :: q in qs <==> q == qs[0] || q in qs[1..];
      (if qs[0].id != id then [qs[0]] else []) + WithoutQuestion(qs[1..], id)
  }

  /** `handleDelete`: the list is filtered only when the user confirms. */
  function HandleDelete(qs: seq<Question>, id: int, confirmed: bool): (r: seq<Question>)
    ensures !confirmed ==> r == qs
    ensures confirmed ==> forall q :: q in r <==> q in qs && q.id != id
  {
    if confirmed then WithoutQuestion(qs, id) else qs
  }

  /** The remaining entries keep their order: removal distributes over
      concatenation. */
  lemma {:induction false} WithoutQuestionAppend(xs: seq<Question>, ys: seq<Question>, id: int)
    ensures WithoutQuestion(xs + ys, id) == WithoutQuestion(xs, id) + WithoutQuestion(ys, id)
  {
    if xs != [] {
      assert (xs + ys)[0] == xs[0] && (xs + ys)[1..] == xs[1..] + ys;
      WithoutQuestionAppend(xs[1..], ys, id);
    } else {
      assert xs + ys == ys;
    }
  }

  /** Deleting an id that is not in the list changes nothing. */
  lemma {:induction false} DeleteAbsent(qs: seq<Question>, id: int)
    requires forall i :: 0 <= i < |qs| ==> qs[i].id != id
    ensures WithoutQuestion(qs, id) == qs
  {
    if qs != [] {
      DeleteAbsent(qs[1..], id);
      assert qs == [qs[0]] + qs[1..];
    }
  }

  /** Deleting twice is deleting once. */
  lemma {:induction false} DeleteTwice(qs: seq<Question>, id: int)
    ensures WithoutQuestion(WithoutQuestion(qs, id), id) == WithoutQuestion(qs, id)
  {
    if qs != [] {
      var rest := WithoutQuestion(qs[1..], id);
      DeleteTwice(qs[1..], id);
      if qs[0].id != id {
        assert WithoutQuestion(qs, id) == [qs[0]] + rest;
        WithoutQuestionAppend([qs[0]], rest, id);
        assert WithoutQuestion([qs[0]], id) == [qs[0]] by {
          assert [qs[0]][0] == qs[0] && [qs[0]][1..] == [];
          assert [qs[0]] + [] == [qs[0]];
        }
        assert WithoutQuestion(rest, id) == rest;
      } else {
        assert WithoutQuestion(qs, id) == [] + rest == rest;
      }
    }
  }
}
