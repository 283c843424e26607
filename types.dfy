/**
 * The puzzle's data model: a question is a code template with blanks
 * ("slots"), each slot offering several candidate fragments ("options"),
 * one of which the author marked as correct. A history item records one
 * solved question.
 */
module Types {

  /** A value that may be absent: `null` or `undefined` in TypeScript. */
  datatype Maybe<+T> = None | Some(value: T)

  /** The outcome of an operation that can fail, carrying the failure's message. */
  datatype Result<+T> = Ok(value: T) | Err(message: string)

  /** One candidate code fragment for a slot. */
  datatype Option = Option(id: string, code: string, isCorrect: bool)

  /** A blank in the code template; `id` is the marker text it replaces. */
  datatype Slot = Slot(id: string, options: seq<Option>)

  /**
   * A puzzle. `difficulty` is kept as the string the program compares at run
   * time; a question of the declared type satisfies `IsTier(difficulty)`.
   */
  datatype Question = Question(
    title: string,
    difficulty: string,
    topic: string,
    description: string,
    codeTemplate: string,
    slots: seq<Slot>,
    explanation: string)

  /** A solved puzzle: the whole question, with an id and the solving date. */
  datatype HistoryItem = HistoryItem(id: string, question: Question, dateSolved: string)

  /** The four phases of a puzzle session. */
  datatype GameState = Loading | Playing | Success | Error

  const Easy: string := "Easy"
  const Medium: string := "Medium"
  const Hard: string := "Hard"

  /** The three difficulty tiers a question may declare. */
  predicate IsTier(d: string) {
    d == Easy || d == Medium || d == Hard
  }

  /** A question whose difficulty is one of the declared tiers. */
  predicate IsTyped(q: Question) {
    IsTier(q.difficulty)
  }

  lemma TierNamesDistinct()
    ensures Easy != Medium && Medium != Hard && Easy != Hard
  {
    assert Easy[0] != Medium[0] && Medium[0] != Hard[0] && Easy[0] != Hard[0];
  }

  /** A tier is exactly one of the three names. */
  lemma TierIsExactlyOne(d: string)
    requires IsTier(d)
    ensures (if d == Easy then 1 else 0) + (if d == Medium then 1 else 0) + (if d == Hard then 1 else 0) == 1
  {
    TierNamesDistinct();
  }

  /** The ids of a question's slots, in question order. */
  function SlotIds(slots: seq<Slot>): (ids: seq<string>)
    ensures |ids| == |slots|
    ensures forall k :: 0 <= k < |slots| ==> ids[k] == slots[k].id
  {
    seq(|slots|, k requires 0 <= k < |slots| => slots[k].id)
  }

  /** Every element of `s` occurs once. */
  predicate NoDuplicates<T(==)>(s: seq<T>) {
    forall i, j :: 0 <= i < j < |s| ==> s[i] != s[j]
  }
}
