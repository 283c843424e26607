/**
 * The puzzle session: the state of one attempt at a question (the chosen
 * option per slot, the verdicts of the last submission, the slot whose
 * options are on show, the phase) and the handlers that change it, together
 * with the views the screen derives from that state.
 */
module Session {
  import opened Types
  import Template
  import QuestionService

  // ---------------------------------------------------------------------
  // Lookups the handlers and views share
  // ---------------------------------------------------------------------

  /** A slot counts as filled when its selected option id is present and non-empty (a truthy value). */
  predicate Filled(selections: map<string, string>, slotId: string)
    ensures Filled(selections, slotId) <==>
      SelectedId(selections, slotId).Some? && SelectedId(selections, slotId).value != ""
  {
    slotId in selections && selections[slotId] != ""
  }

  /** The selected option id of a slot, or nothing (`undefined`). */
  function SelectedId(selections: map<string, string>, slotId: string): Maybe<string> {
    if slotId in selections then Some(selections[slotId]) else None
  }

  /** The position of the first slot with id `slotId`, or -1 when there is none. */
  function IndexOfSlot(slots: seq<Slot>, slotId: string): (i: int)
    ensures -1 <= i < |slots|
    ensures i >= 0 ==> slots[i].id == slotId
    ensures forall j :: 0 <= j < |slots| && (i == -1 || j < i) ==> slots[j].id != slotId
  {
    if slots == [] then -1
    else if slots[0].id == slotId then 0
    else
      var i := IndexOfSlot(slots[1..], slotId);
      if i == -1 then -1 else i + 1
  }

  /** The first option marked correct, if any. */
  function FirstCorrect(options: seq<Option>): (r: Maybe<Option>)
    ensures r.None? <==> forall o :: o in options ==> !o.isCorrect
    ensures r.Some? ==> exists i :: 0 <= i < |options| && options[i] == r.value && r.value.isCorrect &&
                          forall j :: 0 <= j < i ==> !options[j].isCorrect
  {
    if options == [] then None
    else if options[0].isCorrect then Some(options[0])
    else
      var r := FirstCorrect(options[1..]);
      if r.Some? then
        ghost var i :| 0 <= i < |options[1..]| && options[1..][i] == r.value && r.value.isCorrect &&
                       forall j :: 0 <= j < i ==> !options[1..][j].isCorrect;
        assert options[i + 1] == r.value;
        r
      else r
  }

  /** The id of the slot's first correct option, or nothing. */
  function CorrectOptionId(slot: Slot): Maybe<string> {
    match FirstCorrect(slot.options)
    case Some(o) => Some(o.id)
    case None => None
  }

  /** The expected id is missing exactly when no option is correct, and otherwise belongs to a correct option. */
  lemma CorrectOptionIdMeans(slot: Slot)
    ensures CorrectOptionId(slot).None? <==> forall o :: o in slot.options ==> !o.isCorrect
    ensures CorrectOptionId(slot).Some? ==>
      exists o :: o in slot.options && o.isCorrect && o.id == CorrectOptionId(slot).value
  {
  }

  /**
   * A slot passes when its selected id equals the id of its first correct
   * option, where "nothing" equals "nothing": a slot with no correct option
   * and no selection passes.
   */
  predicate SlotCorrect(slot: Slot, selections: map<string, string>) {
    SelectedId(selections, slot.id) == CorrectOptionId(slot)
  }

  /**
   * A passing slot has a selection exactly when it has a correct option,
   * and a selection it has is the id of one of its correct options.
   */
  lemma SlotCorrectMeans(slot: Slot, selections: map<string, string>)
    requires SlotCorrect(slot, selections)
    ensures slot.id in selections <==> exists o :: o in slot.options && o.isCorrect
    ensures slot.id in selections ==>
      exists o :: o in slot.options && o.isCorrect && o.id == selections[slot.id]
  {
    CorrectOptionIdMeans(slot);
  }

  lemma NoKeyNoSelectionPasses(slot: Slot, selections: map<string, string>)
    requires forall o :: o in slot.options ==> !o.isCorrect
    requires slot.id !in selections
    ensures SlotCorrect(slot, selections)
  {
  }

  /** Every slot of the list has a verdict, and it is `true`. */
  predicate AllVerified(slots: seq<Slot>, results: map<string, bool>) {
    forall s :: s in slots ==> s.id in results && results[s.id]
  }

  // ---------------------------------------------------------------------
  // Submission
  // ---------------------------------------------------------------------

  /**
   * The verdict map a submission writes: one entry per slot id, where a
   * later slot with a repeated id overwrites an earlier one.
   */
  function Verdicts(slots: seq<Slot>, selections: map<string, string>): (results: map<string, bool>)
    ensures results.Keys == set k | 0 <= k < |slots| :: slots[k].id
    decreases |slots|
  {
    if slots == [] then map[]
    else
      var last := slots[|slots| - 1];
      var earlier := Verdicts(slots[..|slots| - 1], selections);
      assert forall k :: 0 <= k < |slots| - 1 ==> slots[..|slots| - 1][k] == slots[k];
      earlier[last.id := SlotCorrect(last, selections)]
  }

  /** The verdict of a slot id is that of the last slot carrying it. */
  lemma {:induction false} VerdictOfLastOccurrence(slots: seq<Slot>, selections: map<string, string>, i: nat)
    requires i < |slots|
    requires forall j :: i < j < |slots| ==> slots[j].id != slots[i].id
    ensures Verdicts(slots, selections)[slots[i].id] == SlotCorrect(slots[i], selections)
    decreases |slots|
  {
    if i < |slots| - 1 {
      var init := slots[..|slots| - 1];
      VerdictOfLastOccurrence(init, selections, i);
    }
  }

  /** With distinct slot ids, each slot's verdict is its own. */
  lemma VerdictsOfDistinctSlots(slots: seq<Slot>, selections: map<string, string>)
    requires NoDuplicates(SlotIds(slots))
    ensures forall i :: 0 <= i < |slots| ==> Verdicts(slots, selections)[slots[i].id] == SlotCorrect(slots[i], selections)
  {
    forall i | 0 <= i < |slots| ensures Verdicts(slots, selections)[slots[i].id] == SlotCorrect(slots[i], selections) {
      assert forall j :: i < j < |slots| ==> SlotIds(slots)[j] != SlotIds(slots)[i];
      VerdictOfLastOccurrence(slots, selections, i);
    }
  }

  /** When every slot passes, every verdict written is `true`. */
  lemma {:induction false} VerdictsAllTrue(slots: seq<Slot>, selections: map<string, string>)
    requires forall i :: 0 <= i < |slots| ==> SlotCorrect(slots[i], selections)
    ensures AllVerified(slots, Verdicts(slots, selections))
    decreases |slots|
  {
    if slots != [] {
      var init := slots[..|slots| - 1];
      VerdictsAllTrue(init, selections);
      forall s | s in slots ensures s.id in Verdicts(slots, selections) && Verdicts(slots, selections)[s.id] {
        if s != slots[|slots| - 1] {
          assert s in init;
        }
      }
    }
  }

  /** One more slot graded, as each round of the submission loop does. */
  lemma VerdictsStep(slots: seq<Slot>, selections: map<string, string>, i: nat)
    requires i < |slots|
    ensures Verdicts(slots[..i + 1], selections) ==
      Verdicts(slots[..i], selections)[slots[i].id := SlotCorrect(slots[i], selections)]
  {
    assert slots[..i + 1][..i] == slots[..i];
  }

  /** The first `n` slots all pass. */
  predicate PrefixPasses(slots: seq<Slot>, selections: map<string, string>, n: nat)
    requires n <= |slots|
  {
    forall j :: 0 <= j < n ==> SlotCorrect(slots[j], selections)
  }

  lemma PrefixPassesStep(slots: seq<Slot>, selections: map<string, string>, i: nat)
    requires i < |slots|
    ensures PrefixPasses(slots, selections, i + 1) <==>
      PrefixPasses(slots, selections, i) && SlotCorrect(slots[i], selections)
  {
  }

  /**
   * The loop of a submission: walks the slots in order, writing each
   * verdict and clearing `allCorrect` at the first failing slot.
   */
  method Grade(slots: seq<Slot>, selections: map<string, string>) returns (results: map<string, bool>, allCorrect: bool)
    ensures results == Verdicts(slots, selections)
    ensures results.Keys == set k | 0 <= k < |slots| :: slots[k].id
    ensures allCorrect <==> forall i :: 0 <= i < |slots| ==> SlotCorrect(slots[i], selections)
    ensures allCorrect ==> AllVerified(slots, results)
  {
    results := map[];
    allCorrect := true;
    for i := 0 to |slots|
      invariant results == Verdicts(slots[..i], selections)
      invariant allCorrect <==> PrefixPasses(slots, selections, i)
    {
      var slot := slots[i];
      var isCorrect := SlotCorrect(slot, selections);
      VerdictsStep(slots, selections, i);
      PrefixPassesStep(slots, selections, i);
      results := results[slot.id := isCorrect];
      if !isCorrect {
        allCorrect := false;
      }
    }
    assert slots[..|slots|] == slots;
    if allCorrect {
      VerdictsAllTrue(slots, selections);
    }
  }

  /** The ids of a slot list, gathered by position or by element. */
  lemma SlotIdSets(slots: seq<Slot>)
    ensures (set k | 0 <= k < |slots| :: slots[k].id) == set s | s in slots :: s.id
  {
    forall s | s in slots
      ensures s.id in set k | 0 <= k < |slots| :: slots[k].id
    {
      var k :| 0 <= k < |slots| && slots[k] == s;
    }
  }

  // ---------------------------------------------------------------------
  // Choosing an option
  // ---------------------------------------------------------------------

  /**
   * The verdicts after a new choice for `slotId`: a `false` verdict for that
   * slot is dropped; every other entry, a `true` one for that slot included,
   * is kept.
   */
  function ClearStale(results: map<string, bool>, slotId: string): (r: map<string, bool>)
    ensures slotId in r ==> r[slotId]
    ensures slotId in results && results[slotId] ==> slotId in r
    ensures forall k :: k != slotId ==> (k in r <==> k in results)
    ensures forall k :: k in r ==> k in results && r[k] == results[k]
  {
    if slotId in results && !results[slotId] then results - {slotId} else results
  }

  /**
   * Where the active slot moves after a choice for `slotId`: to the slot
   * after the first one with that id (after position -1, so the first slot,
   * when no slot has that id), provided it exists and was not filled before
   * the choice; nowhere otherwise.
   */
  function AdvanceTarget(question: Maybe<Question>, selectionsBefore: map<string, string>, slotId: string): (r: Maybe<string>)
    ensures r.Some? ==> (
      && question.Some?
      && var slots := question.value.slots;
         var next := IndexOfSlot(slots, slotId) + 1;
         next < |slots| && r.value == slots[next].id && !Filled(selectionsBefore, r.value))
    ensures (
      && question.Some?
      && IndexOfSlot(question.value.slots, slotId) + 1 < |question.value.slots|
      && !Filled(selectionsBefore, question.value.slots[IndexOfSlot(question.value.slots, slotId) + 1].id)
      ) ==> r.Some?
  {
    match question
    case None => None
    case Some(q) =>
      var next := IndexOfSlot(q.slots, slotId) + 1;
      if next < |q.slots| && !Filled(selectionsBefore, q.slots[next].id) then Some(q.slots[next].id) else None
  }

  /** Choosing in slot i (the first with its id) moves on to slot i+1 when that one is still empty. */
  lemma AdvanceToFollowingSlot(q: Question, selections: map<string, string>, i: nat)
    requires i + 1 < |q.slots|
    requires forall j :: 0 <= j < i ==> q.slots[j].id != q.slots[i].id
    requires !Filled(selections, q.slots[i + 1].id)
    ensures AdvanceTarget(Some(q), selections, q.slots[i].id) == Some(q.slots[i + 1].id)
  {
    assert IndexOfSlot(q.slots, q.slots[i].id) == i;
  }

  /** Choosing in a slot whose follower is already filled, or in the last slot, leaves the active slot alone. */
  lemma NoAdvanceIntoFilledOrPastEnd(q: Question, selections: map<string, string>, i: nat)
    requires i < |q.slots|
    requires forall j :: 0 <= j < i ==> q.slots[j].id != q.slots[i].id
    requires i + 1 == |q.slots| || Filled(selections, q.slots[i + 1].id)
    ensures AdvanceTarget(Some(q), selections, q.slots[i].id) == None
  {
    assert IndexOfSlot(q.slots, q.slots[i].id) == i;
  }

  /** An id that names no slot sends the active slot to the first slot, when that one is empty. */
  lemma UnknownSlotAdvancesToFirst(q: Question, selections: map<string, string>, slotId: string)
    requires forall s :: s in q.slots ==> s.id != slotId
    requires |q.slots| > 0 && !Filled(selections, q.slots[0].id)
    ensures AdvanceTarget(Some(q), selections, slotId) == Some(q.slots[0].id)
  {
    assert IndexOfSlot(q.slots, slotId) == -1;
  }

  // ---------------------------------------------------------------------
  // Views derived from the state
  // ---------------------------------------------------------------------

  /** The code template of the current question as code and slot segments; nothing without a question. */
  function ParsedCode(question: Maybe<Question>): (segs: seq<Template.Segment>)
    ensures question.None? ==> segs == []
    ensures question.Some? ==> Template.Concat(Template.Contents(segs)) == question.value.codeTemplate
    ensures question.Some? ==> (
      && |segs| % 2 == 1
      && forall k :: 0 <= k < |segs| ==> (segs[k].SlotSegment? <==> k % 2 == 1))
    ensures question.Some? ==> forall k :: 0 <= k < |segs| ==>
      if segs[k].SlotSegment? then Template.IsMarker(segs[k].content)
      else !Template.HasMarker(segs[k].content)
  {
    match question
    case None => []
    case Some(q) => Template.ParseTemplate(q.codeTemplate)
  }

  /** The options on show: those of the first slot with the active id, if there is a question and an active id. */
  function ActiveSlotOptions(question: Maybe<Question>, activeSlotId: Maybe<string>): (options: seq<Option>)
    ensures question.None? || activeSlotId.None? || activeSlotId == Some("") ==> options == []
    ensures question.Some? && activeSlotId.Some? && activeSlotId.value != "" ==>
      var i := IndexOfSlot(question.value.slots, activeSlotId.value);
      options == if i == -1 then [] else question.value.slots[i].options
  {
    if question.None? || activeSlotId.None? || activeSlotId.value == "" then []
    else
      var i := IndexOfSlot(question.value.slots, activeSlotId.value);
      if i == -1 then [] else question.value.slots[i].options
  }

  /** The submit button is enabled exactly when there is a question and each of its slots is filled. */
  function IsAllFilled(question: Maybe<Question>, selections: map<string, string>): (r: bool)
    ensures r <==> question.Some? && forall s :: s in question.value.slots ==> Filled(selections, s.id)
  {
    match question
    case None => false
    case Some(q) => forall i :: 0 <= i < |q.slots| ==> Filled(selections, q.slots[i].id)
  }

  /** How a slot is drawn. */
  datatype SlotStatus = Empty | FilledIn | Correct | Incorrect

  /** A verdict, when present, decides the status; otherwise the slot is filled or empty. */
  function StatusOf(selections: map<string, string>, results: map<string, bool>, slotId: string): (st: SlotStatus)
    ensures st == Correct <==> slotId in results && results[slotId]
    ensures st == Incorrect <==> slotId in results && !results[slotId]
    ensures st == FilledIn <==> slotId !in results && Filled(selections, slotId)
    ensures st == Empty <==> slotId !in results && !Filled(selections, slotId)
  {
    var status := Empty;
    var status := if Filled(selections, slotId) then FilledIn else status;
    var status := if slotId in results && results[slotId] then Correct else status;
    if slotId in results && !results[slotId] then Incorrect else status
  }

  /** Adds a title to the seen list unless it is already there. */
  function MarkSeen(seen: seq<string>, title: string): (r: seq<string>)
    ensures title in r
    ensures |seen| <= |r| <= |seen| + 1 && r[..|seen|] == seen
    ensures title in seen ==> r == seen
    ensures NoDuplicates(seen) ==> NoDuplicates(r)
  {
    if title in seen then seen else seen + [title]
  }

  /** The id of the question's first slot, or nothing when it has no slots. */
  function FirstSlotId(q: Question): (r: Maybe<string>)
    ensures r.None? <==> q.slots == []
    ensures r.Some? ==> r.value == q.slots[0].id && r.value in SlotIds(q.slots)
  {
    if |q.slots| > 0 then Some(q.slots[0].id) else None
  }

  // ---------------------------------------------------------------------
  // The session
  // ---------------------------------------------------------------------

  class PuzzleSession {
    var question: Maybe<Question>
    var gameState: GameState
    var difficulty: string
    var seenTitles: seq<string>
    var history: seq<HistoryItem>
    var selections: map<string, string>
    var activeSlotId: Maybe<string>
    var validationResults: map<string, bool>

    /**
     * A question is loaded while playing or solved, and a solved puzzle has
     * no active slot and a `true` verdict for each of its slots.
     */
    ghost predicate Valid()
      reads this
    {
      && (gameState == Playing || gameState == Success ==> question.Some?)
      && (gameState == Success ==> activeSlotId.None? && AllVerified(question.value.slots, validationResults))
    }

    /** A fresh session, before the first question arrives; the history and seen titles are those stored earlier. */
    constructor (savedHistory: seq<HistoryItem>, savedSeen: seq<string>)
      ensures Valid()
      ensures question.None? && gameState == Loading && difficulty == Medium
      ensures history == savedHistory && seenTitles == savedSeen
      ensures selections == map[] && activeSlotId.None? && validationResults == map[]
    {
      question := None;
      gameState := Loading;
      difficulty := Medium;
      seenTitles := savedSeen;
      history := savedHistory;
      selections := map[];
      activeSlotId := None;
      validationResults := map[];
    }

    /** The difficulty chosen in the header, used by the next fetch. */
    method ChangeDifficulty(d: string)
      requires Valid()
      modifies this
      ensures Valid()
      ensures difficulty == d
      ensures question == old(question) && gameState == old(gameState) && seenTitles == old(seenTitles)
      ensures history == old(history) && selections == old(selections)
      ensures activeSlotId == old(activeSlotId) && validationResults == old(validationResults)
    {
      difficulty := d;
    }

    /**
     * Puts `q` on screen: its first slot active, no choices and no verdicts,
     * its title marked seen, the phase `Playing`.
     */
    method Show(q: Question)
      modifies this
      ensures Valid()
      ensures question == Some(q) && gameState == Playing
      ensures selections == map[] && validationResults == map[]
      ensures activeSlotId == FirstSlotId(q)
      ensures seenTitles == MarkSeen(old(seenTitles), q.title)
      ensures difficulty == old(difficulty) && history == old(history)
    {
      question := Some(q);
      selections := map[];
      validationResults := map[];
      gameState := Playing;
      activeSlotId := FirstSlotId(q);
      seenTitles := MarkSeen(seenTitles, q.title);
    }

    /**
     * Applies the outcome of a fetch. The choices and verdicts are cleared
     * either way. A question is shown with its first slot active and its
     * title marked seen; a failure sets the phase to `Error` and keeps the
     * previous question.
     */
    method Receive(r: Result<Question>)
      modifies this
      ensures Valid()
      ensures difficulty == old(difficulty) && history == old(history)
      ensures selections == map[] && validationResults == map[]
      ensures r.Ok? ==> question == Some(r.value) && gameState == Playing
      ensures r.Ok? ==> activeSlotId == FirstSlotId(r.value) && seenTitles == MarkSeen(old(seenTitles), r.value.title)
      ensures r.Err? ==> question == old(question) && gameState == Error && activeSlotId.None? && seenTitles == old(seenTitles)
    {
      // While the question is on its way the phase reads `Loading`.
      gameState := Loading;
      selections := map[];
      validationResults := map[];
      activeSlotId := None;
      if r.Ok? {
        Show(r.value);
      } else {
        gameState := Error;
      }
    }

    /**
     * Fetches the next question for the current difficulty, as one step;
     * `roll` stands for the random draw of the question source.
     */
    method FetchNewQuestion(roll: nat)
      modifies this
      ensures Valid()
      ensures difficulty == old(difficulty) && history == old(history)
      ensures selections == map[] && validationResults == map[]
      ensures var r := QuestionService.GenerateQuestion(old(difficulty), old(seenTitles), roll);
        if r.Ok? then
          && question == Some(r.value) && gameState == Playing
          && activeSlotId == FirstSlotId(r.value)
          && seenTitles == MarkSeen(old(seenTitles), r.value.title)
        else
          && question == old(question) && gameState == Error
          && activeSlotId.None? && seenTitles == old(seenTitles)
    {
      var r := QuestionService.GenerateQuestion(difficulty, seenTitles, roll);
      Receive(r);
    }

    /** Jumps straight into a given question, taking over its difficulty. */
    method HandleQuestionSelect(q: Question)
      modifies this
      ensures Valid()
      ensures question == Some(q) && difficulty == q.difficulty && gameState == Playing
      ensures selections == map[] && validationResults == map[]
      ensures activeSlotId == FirstSlotId(q)
      ensures seenTitles == MarkSeen(old(seenTitles), q.title)
      ensures history == old(history)
    {
      difficulty := q.difficulty;
      Show(q);
    }

    /** Makes a slot the active one; ignored once the puzzle is solved. The id is not checked against the question. */
    method HandleSlotClick(slotId: string)
      requires Valid()
      modifies this
      ensures Valid()
      ensures old(gameState) == Success ==> activeSlotId == old(activeSlotId)
      ensures old(gameState) != Success ==> activeSlotId == Some(slotId)
      ensures question == old(question) && gameState == old(gameState) && difficulty == old(difficulty)
      ensures seenTitles == old(seenTitles) && history == old(history)
      ensures selections == old(selections) && validationResults == old(validationResults)
    {
      if gameState == Success {
        return;
      }
      activeSlotId := Some(slotId);
    }

    /**
     * Records `option` as the choice for `slotId`; ignored once the puzzle is
     * solved. A `false` verdict for that slot is dropped (a `true` one is
     * kept), and the active slot may move on to the next empty slot. Neither
     * the slot nor the option is checked against the question.
     */
    method HandleOptionClick(slotId: string, option: Option)
      requires Valid()
      modifies this
      ensures Valid()
      ensures old(gameState) == Success ==>
        && selections == old(selections) && validationResults == old(validationResults)
        && activeSlotId == old(activeSlotId)
      ensures old(gameState) != Success ==>
        && selections == old(selections)[slotId := option.id]
        && validationResults == ClearStale(old(validationResults), slotId)
        && activeSlotId == match AdvanceTarget(old(question), old(selections), slotId)
                           case Some(next) => Some(next)
                           case None => old(activeSlotId)
      ensures old(gameState) != Success ==> StatusOf(selections, validationResults, slotId) != Incorrect
      ensures question == old(question) && gameState == old(gameState) && difficulty == old(difficulty)
      ensures seenTitles == old(seenTitles) && history == old(history)
    {
      if gameState == Success {
        return;
      }
      var selectionsBefore := selections;
      selections := selections[slotId := option.id];
      validationResults := ClearStale(validationResults, slotId);
      match AdvanceTarget(question, selectionsBefore, slotId)
      case Some(next) =>
        activeSlotId := Some(next);
      case None =>
    }

    /**
     * Checks every slot of the question. The verdicts replace the old ones.
     * When all pass, the puzzle is solved: no slot stays active and the
     * question is appended to the history under `itemId`, solved at
     * `dateSolved`. Otherwise the phase stays `Playing`. The screen offers
     * this only while playing and with every slot filled.
     */
    method SubmitPuzzle(itemId: string, dateSolved: string)
      requires Valid()
      requires gameState == Playing && IsAllFilled(question, selections)
      modifies this
      ensures Valid()
      ensures validationResults == Verdicts(old(question).value.slots, old(selections))
      ensures validationResults.Keys == set s | s in old(question).value.slots :: s.id
      ensures var solved := forall i :: 0 <= i < |old(question).value.slots| ==>
                              SlotCorrect(old(question).value.slots[i], old(selections));
        if solved then
          && gameState == Success && activeSlotId.None?
          && history == old(history) + [HistoryItem(itemId, old(question).value, dateSolved)]
        else
          && gameState == Playing && activeSlotId == old(activeSlotId)
          && history == old(history)
      ensures question == old(question) && difficulty == old(difficulty)
      ensures seenTitles == old(seenTitles) && selections == old(selections)
    {
      var q := question.value;
      var results, allCorrect := Grade(q.slots, selections);
      validationResults := results;
      SlotIdSets(q.slots);
      if allCorrect {
        gameState := Success;
        activeSlotId := None;
        history := history + [HistoryItem(itemId, q, dateSolved)];
      }
    }
  }

  /**
   * A round on Two Sum up to the submission: selecting the question makes
   * its first slot active, choosing the first option there moves the active
   * slot on to the second, and choosing the first option of the second slot
   * fills both.
   */
  method FillTwoSum() returns (s: PuzzleSession)
    ensures fresh(s) && s.Valid()
    ensures s.question == Some(QuestionService.TwoSum) && s.gameState == Playing
    ensures s.selections == map["{{SLOT_1}}" := "opt1_1", "{{SLOT_2}}" := "opt2_1"]
    ensures s.activeSlotId == Some("{{SLOT_2}}") && s.history == []
    ensures IsAllFilled(s.question, s.selections)
  {
    var twoSum := QuestionService.TwoSum;
    s := new PuzzleSession([], []);
    s.HandleQuestionSelect(twoSum);
    assert s.activeSlotId == Some("{{SLOT_1}}");
    s.HandleOptionClick("{{SLOT_1}}", twoSum.slots[0].options[0]);
    assert s.activeSlotId == Some("{{SLOT_2}}");
    s.HandleOptionClick("{{SLOT_2}}", twoSum.slots[1].options[0]);
  }

  /** Both of Two Sum's slots pass with the first option of each chosen. */
  lemma TwoSumPicksPass(selections: map<string, string>)
    requires selections == map["{{SLOT_1}}" := "opt1_1", "{{SLOT_2}}" := "opt2_1"]
    ensures forall i :: 0 <= i < |QuestionService.TwoSum.slots| ==>
              SlotCorrect(QuestionService.TwoSum.slots[i], selections)
    ensures Verdicts(QuestionService.TwoSum.slots, selections) == map["{{SLOT_1}}" := true, "{{SLOT_2}}" := true]
  {
    var slots := QuestionService.TwoSum.slots;
    assert SlotCorrect(slots[0], selections) && SlotCorrect(slots[1], selections);
    assert slots[..1] == [slots[0]] && slots[..1][..0] == [];
  }

  /**
   * The same round completed: the submission of the filled Two Sum solves
   * the puzzle, marks both slots correct and records one history item.
   */
  method SolveTwoSum() returns (s: PuzzleSession)
    ensures s.gameState == Success && s.activeSlotId.None?
    ensures s.history == [HistoryItem("1700000000000", QuestionService.TwoSum, "2023-11-14T22:13:20.000Z")]
    ensures s.validationResults.Keys == {"{{SLOT_1}}", "{{SLOT_2}}"}
    ensures forall id :: id in s.validationResults ==> s.validationResults[id]
  {
    s := FillTwoSum();
    TwoSumPicksPass(s.selections);
    s.SubmitPuzzle("1700000000000", "2023-11-14T22:13:20.000Z");
    assert s.gameState == Success;
  }
}
