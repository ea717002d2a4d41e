/**
 * `DialogueManager`: the row list, the cursor into it, and the show/command
 * state machine that turns the row at the cursor into notifications for the
 * `OnChangeNextDialogue` subscribers and calls on the dialogue view.
 *
 * Every notification and every view call is one `Effect`; an awaited call is
 * atomic, so a run is the sequence of effects in call order. A row whose
 * command is `SetCharacter` with load mode `NoWait` shows the next row before
 * its own backdrop is applied, which is why the specification below returns
 * the final cursor together with the effects.
 */
module DialogueManagerModel {
  import opened Optional
  import opened Text
  import opened DialogueRecord
  import opened CsvRows

  /** One observable step of the dialogue runtime. */
  datatype Effect =
    | Notify(row: Option<DialogueData>)
    | FadeInBlackScreen
    | FadeOutBlackScreen
    | FadeInCharacter
    | FadeOutCharacter
    | SetLeftCharacter(key: string)
    | SetRightCharacter(key: string)
    | SetBG(sprite: string)
    | HighlightLeft
    | HighlightRight
    | HighlightAll
    | DeHighlightLeft
    | DeHighlightRight
    | DeHighlightAll
    | UnknownCommand(command: string)

  /** The effects of one call and the cursor it leaves behind. */
  datatype Outcome = Outcome(effects: seq<Effect>, cursor: nat)

  // ------------------------------------------------------------ highlighting

  /** A view call that only changes which portraits are lit. */
  predicate IsHighlightCall(e: Effect) {
    e.HighlightLeft? || e.HighlightRight? || e.HighlightAll?
    || e.DeHighlightLeft? || e.DeHighlightRight? || e.DeHighlightAll?
  }

  /** The view calls `Process` makes for a row's highlight column: one or two highlight calls, nothing else. */
  function HighlightEffects(highlight: string): (r: seq<Effect>)
    ensures 1 <= |r| <= 2
    ensures forall e :: e in r ==> IsHighlightCall(e)
  {
    if highlight == "Left" then [HighlightLeft, DeHighlightRight]
    else if highlight == "Right" then [HighlightRight, DeHighlightLeft]
    else if highlight == "None" then [DeHighlightAll]
    else [HighlightAll]
  }

  /** Which portraits are lit. */
  datatype Lit = Lit(left: bool, right: bool)

  /** How a view call changes which portraits are lit; other calls leave it alone. */
  function Light(s: Lit, e: Effect): Lit {
    match e
    case HighlightLeft => s.(left := true)
    case HighlightRight => s.(right := true)
    case HighlightAll => Lit(true, true)
    case DeHighlightLeft => s.(left := false)
    case DeHighlightRight => s.(right := false)
    case DeHighlightAll => Lit(false, false)
    case _ => s
  }

  function LightAll(s: Lit, effects: seq<Effect>): Lit
    decreases effects
  {
    if effects == [] then s else LightAll(Light(s, effects[0]), effects[1..])
  }

  /**
   * Whatever was lit before, a highlight column of "Left" leaves exactly the
   * left portrait lit, "Right" exactly the right one, "None" neither, and
   * "All" or any other value both.
   */
  lemma {:induction false} ProcessLights(s: Lit, highlight: string)
    ensures var after := LightAll(s, HighlightEffects(highlight));
      && (after == Lit(true, false) <==> highlight == "Left")
      && (after == Lit(false, true) <==> highlight == "Right")
      && (after == Lit(false, false) <==> highlight == "None")
      && (after == Lit(true, true) <==> highlight !in {"Left", "Right", "None"})
  {
    var e := HighlightEffects(highlight);
    if |e| == 2 {
      var mid := Light(s, e[0]);
      assert e[1..] == [e[1]];
      assert LightAll(mid, [e[1]]) == LightAll(Light(mid, e[1]), []);
      assert LightAll(s, e) == Light(mid, e[1]);
    } else {
      assert e[1..] == [];
      assert LightAll(s, e) == Light(s, e[0]);
    }
  }

  // ------------------------------------------------------- show state machine

  /** The measure for the auto-advance chain: rows still ahead of the cursor. */
  function Remaining(rows: seq<DialogueData>, i: nat): nat {
    if i < |rows| then |rows| - i else 0
  }

  /** BG, then CG, each only when non-empty; both go to the background. */
  function Backdrop(d: DialogueData): seq<Effect> {
    (if d.bg != "" then [SetBG(d.bg)] else []) + (if d.cg != "" then [SetBG(d.cg)] else [])
  }

  /** A row that shows the next one by itself: a portrait set with load mode `NoWait`. */
  predicate AutoAdvances(d: DialogueData) {
    d.command == "SetCharacter" && (d.characterSide == "Left" || d.characterSide == "Right")
    && d.loadMode == "NoWait"
  }

  /** The portrait call of a `SetCharacter` row on a known side. */
  function Portrait(d: DialogueData): Effect {
    if d.characterSide == "Left" then SetLeftCharacter(d.characterKey)
    else SetRightCharacter(d.characterKey)
  }

  /** `ShowDialogue` with the cursor at `i`. */
  function ShowFrom(rows: seq<DialogueData>, i: nat): (r: Outcome)
    ensures r.effects != []
    ensures i < |rows| ==> r.effects[0] == Notify(Some(rows[i]))
    ensures i >= |rows| ==> r.effects[0] == Notify(None)
    ensures r.cursor == i || i < r.cursor <= |rows|
    decreases Remaining(rows, i), 3
  {
    if i >= |rows| then Outcome([Notify(None), FadeInBlackScreen], i)
    else
      var dlg := rows[i];
      var run := if dlg.command != "" then ExecuteFrom(rows, i, dlg) else Outcome([], i);
      Outcome([Notify(Some(dlg))] + run.effects + Backdrop(dlg), run.cursor)
  }

  /** `ExecuteCommand(dlg)` with the cursor at `i`. */
  function ExecuteFrom(rows: seq<DialogueData>, i: nat, dlg: DialogueData): (r: Outcome)
    ensures i <= r.cursor
    ensures i < |rows| ==> r.cursor == i || i < r.cursor <= |rows|
    decreases Remaining(rows, i), if i < |rows| then 2 else 6
  {
    if dlg.command == "SetCharacter" then SetCharacterFrom(rows, i, dlg)
    else if dlg.command == "Say" then Outcome([Notify(Some(dlg))] + HighlightEffects(dlg.highlight), i)
    else if dlg.command == "CleanCharacter" then Outcome([FadeOutCharacter], i)
    else Outcome([UnknownCommand(dlg.command)], i)
  }

  /** `HandleSetCharater(dlg)` with the cursor at `i`. */
  function SetCharacterFrom(rows: seq<DialogueData>, i: nat, dlg: DialogueData): (r: Outcome)
    ensures i <= r.cursor
    ensures i < |rows| ==> r.cursor == i || i < r.cursor <= |rows|
    ensures r.cursor != i <==> dlg.loadMode == "NoWait" && dlg.characterSide in {"Left", "Right"}
    ensures r.effects != [] <==> dlg.characterSide in {"Left", "Right"}
    ensures dlg.characterSide == "Left" ==> r.effects[0] == SetLeftCharacter(dlg.characterKey)
    ensures dlg.characterSide == "Right" ==> r.effects[0] == SetRightCharacter(dlg.characterKey)
    decreases Remaining(rows, i), if i < |rows| then 1 else 5
  {
    if dlg.characterSide == "Left" || dlg.characterSide == "Right" then
      var next := if dlg.loadMode == "NoWait" then NextFrom(rows, i) else Outcome([], i);
      Outcome([Portrait(dlg)] + next.effects, next.cursor)
    else Outcome([], i)
  }

  /** `NextDialogue` with the cursor at `i`. */
  function NextFrom(rows: seq<DialogueData>, i: nat): (r: Outcome)
    ensures r.cursor == i + 1 || i + 1 < r.cursor <= |rows|
    decreases Remaining(rows, i), if i < |rows| then 0 else 4
  {
    ShowFrom(rows, i + 1)
  }

  // ------------------------------------------------------ the run, flattened

  /**
   * The first row at or after `i` that waits for input, or the row count when
   * every row from `i` on advances by itself.
   */
  function FirstWaiting(rows: seq<DialogueData>, i: nat): (c: nat)
    ensures i <= c
    ensures c == i || i < c <= |rows|
    ensures forall j :: i <= j < c ==> j < |rows| && AutoAdvances(rows[j])
    ensures c < |rows| ==> !AutoAdvances(rows[c])
    decreases Remaining(rows, i)
  {
    if i >= |rows| || !AutoAdvances(rows[i]) then i else FirstWaiting(rows, i + 1)
  }

  /** Notification and portrait call of each auto-advancing row in `i..c`, in row order. */
  function ChainEntries(rows: seq<DialogueData>, i: nat, c: nat): seq<Effect>
    requires i == c || i < c <= |rows|
    decreases c - i
  {
    if i == c then [] else [Notify(Some(rows[i])), Portrait(rows[i])] + ChainEntries(rows, i + 1, c)
  }

  /** Backdrops of the rows in `i..c`, last row first. */
  function ChainBackdrops(rows: seq<DialogueData>, i: nat, c: nat): seq<Effect>
    requires i == c || i < c <= |rows|
    decreases c - i
  {
    if i == c then [] else ChainBackdrops(rows, i + 1, c) + Backdrop(rows[i])
  }

  /** The command effects of a row that does not advance by itself. */
  function CommandEffects(d: DialogueData): seq<Effect>
    requires !AutoAdvances(d)
  {
    if d.command == "" then []
    else if d.command == "SetCharacter" then
      (if d.characterSide == "Left" || d.characterSide == "Right" then [Portrait(d)] else [])
    else if d.command == "Say" then [Notify(Some(d))] + HighlightEffects(d.highlight)
    else if d.command == "CleanCharacter" then [FadeOutCharacter]
    else [UnknownCommand(d.command)]
  }

  /** What the row where a run stops shows, or the end-of-script effects past the last row. */
  function StopEffects(rows: seq<DialogueData>, c: nat): seq<Effect>
    requires c < |rows| ==> !AutoAdvances(rows[c])
  {
    if c >= |rows| then [Notify(None), FadeInBlackScreen]
    else [Notify(Some(rows[c]))] + CommandEffects(rows[c]) + Backdrop(rows[c])
  }

  /** A row that advances by itself: its notification and portrait, the next row's whole show, then its backdrop. */
  lemma {:induction false} ShowAutoStep(rows: seq<DialogueData>, i: nat)
    requires i < |rows| && AutoAdvances(rows[i])
    ensures var d := rows[i]; var inner := ShowFrom(rows, i + 1);
      ShowFrom(rows, i) == Outcome([Notify(Some(d)), Portrait(d)] + inner.effects + Backdrop(d), inner.cursor)
  {
    var d := rows[i];
    var inner := ShowFrom(rows, i + 1);
    assert NextFrom(rows, i) == inner;
    assert SetCharacterFrom(rows, i, d) == Outcome([Portrait(d)] + inner.effects, inner.cursor);
    assert ExecuteFrom(rows, i, d) == Outcome([Portrait(d)] + inner.effects, inner.cursor);
    assert ShowFrom(rows, i) == Outcome([Notify(Some(d))] + ([Portrait(d)] + inner.effects) + Backdrop(d), inner.cursor);
    PairRegroup(Notify(Some(d)), Portrait(d), inner.effects, Backdrop(d));
  }

  /** Regroups a concatenation of effect lists; it only helps the solver. */
  lemma {:induction false} PairRegroup(x: Effect, y: Effect, m: seq<Effect>, z: seq<Effect>)
    ensures [x] + ([y] + m) + z == [x, y] + m + z
  {
  }

  /** Regroups a concatenation of effect lists; it only helps the solver. */
  lemma {:induction false} TraceRegroup(a: seq<Effect>, b: seq<Effect>, m: seq<Effect>, z: seq<Effect>)
    ensures a + (b + m + z) == a + b + m + z
  {
  }

  /** A row that waits, or the end of the script, is all the show there is; the cursor stays. */
  lemma {:induction false} ShowWaitingStep(rows: seq<DialogueData>, i: nat)
    requires i < |rows| ==> !AutoAdvances(rows[i])
    ensures ShowFrom(rows, i) == Outcome(StopEffects(rows, i), i)
  {
    if i < |rows| {
      var d := rows[i];
      assert d.command != "" ==> ExecuteFrom(rows, i, d) == Outcome(CommandEffects(d), i);
    }
  }

  /** Regroups a concatenation of effect lists; it only helps the solver. */
  lemma {:induction false} Regroup(a: seq<Effect>, b: seq<Effect>, m: seq<Effect>, c: seq<Effect>, z: seq<Effect>)
    ensures a + (b + m + c) + z == (a + b) + m + (c + z)
  {
  }

  /**
   * A show from `i` runs through the auto-advancing rows up to the first
   * waiting row `c`: their notifications and portraits in row order, then what
   * row `c` (or the end of the script) shows, then the chain's backdrops in
   * reverse row order; the cursor is left at `c`.
   */
  lemma {:induction false} ShowClosedForm(rows: seq<DialogueData>, i: nat)
    ensures var c := FirstWaiting(rows, i);
      ShowFrom(rows, i) == Outcome(ChainEntries(rows, i, c) + StopEffects(rows, c) + ChainBackdrops(rows, i, c), c)
    decreases Remaining(rows, i)
  {
    var c := FirstWaiting(rows, i);
    if i < |rows| && AutoAdvances(rows[i]) {
      var d := rows[i];
      ShowClosedForm(rows, i + 1);
      ShowAutoStep(rows, i);
      var entries := ChainEntries(rows, i + 1, c);
      var backs := ChainBackdrops(rows, i + 1, c);
      var stop := StopEffects(rows, c);
      assert ChainEntries(rows, i, c) == [Notify(Some(d)), Portrait(d)] + entries;
      assert ChainBackdrops(rows, i, c) == backs + Backdrop(d);
      Regroup([Notify(Some(d)), Portrait(d)], entries, stop, backs, Backdrop(d));
    } else {
      ShowWaitingStep(rows, i);
    }
  }

  /**
   * The cursor stops at the first row from `i` on that waits: every row it
   * passes advances by itself, and the row it stops at (if any) does not.
   */
  lemma {:induction false} ShowStopsAtWaitingRow(rows: seq<DialogueData>, i: nat)
    ensures var c := ShowFrom(rows, i).cursor;
      && (forall j :: i <= j < c ==> j < |rows| && AutoAdvances(rows[j]))
      && (c < |rows| ==> !AutoAdvances(rows[c]))
  {
    ShowClosedForm(rows, i);
  }

  /** The two effects that only the end of the script produces. */
  predicate EndMarker(e: Effect) {
    e == FadeInBlackScreen || e == Notify(None)
  }

  lemma {:induction false} ChainHasNoEndMarker(rows: seq<DialogueData>, i: nat, c: nat)
    requires i == c || i < c <= |rows|
    ensures forall e :: e in ChainEntries(rows, i, c) ==> !EndMarker(e)
    ensures forall e :: e in ChainBackdrops(rows, i, c) ==> !EndMarker(e)
    decreases c - i
  {
    if i < c {
      ChainHasNoEndMarker(rows, i + 1, c);
    }
  }

  /**
   * Starting at or before the end, a show notifies `null` and fades the
   * black screen in exactly when its cursor ends up at the row count.
   */
  lemma {:induction false} ShowReachesEnd(rows: seq<DialogueData>, i: nat)
    requires i <= |rows|
    ensures var o := ShowFrom(rows, i);
      && (FadeInBlackScreen in o.effects <==> o.cursor == |rows|)
      && (Notify(None) in o.effects <==> o.cursor == |rows|)
  {
    ShowClosedForm(rows, i);
    ClosedFormReachesEnd(rows, i, FirstWaiting(rows, i));
  }

  /** With the cursor at or past the end, a show only notifies `null` and fades the black screen in. */
  lemma {:induction false} ShowPastEnd(rows: seq<DialogueData>, i: nat)
    requires i >= |rows|
    ensures ShowFrom(rows, i).cursor == i
    ensures forall e :: e in ShowFrom(rows, i).effects ==> EndMarker(e)
  {
  }

  /** The end markers in the flattened run come from the stop effects alone. */
  lemma {:induction false} ClosedFormReachesEnd(rows: seq<DialogueData>, i: nat, c: nat)
    requires c == FirstWaiting(rows, i)
    ensures var all := ChainEntries(rows, i, c) + StopEffects(rows, c) + ChainBackdrops(rows, i, c);
      && (FadeInBlackScreen in all <==> c >= |rows|)
      && (Notify(None) in all <==> c >= |rows|)
  {
    ChainHasNoEndMarker(rows, i, c);
    var stop := StopEffects(rows, c);
    if c < |rows| {
      assert forall e :: e in stop ==> !EndMarker(e);
    } else {
      assert stop[0] == Notify(None) && stop[1] == FadeInBlackScreen;
    }
  }

  /**
   * The backdrop of the row the show started on is applied last, after
   * everything the rows it advanced into did; the CG column goes to the
   * background too, as the very last call.
   */
  lemma {:induction false} ShowEndsWithOwnBackdrop(rows: seq<DialogueData>, i: nat)
    requires i < |rows|
    ensures var e := ShowFrom(rows, i).effects; var b := Backdrop(rows[i]);
      |b| <= |e| && e[|e| - |b|..] == b
    ensures rows[i].cg != "" ==> var e := ShowFrom(rows, i).effects; e[|e| - 1] == SetBG(rows[i].cg)
  {
    var d := rows[i];
    if AutoAdvances(d) {
      ShowAutoStep(rows, i);
    } else {
      ShowWaitingStep(rows, i);
    }
  }

  /** A "Say" row notifies its row twice, then sets the highlight, then its backdrop; the cursor stays. */
  lemma {:induction false} SayNotifiesTwice(rows: seq<DialogueData>, i: nat)
    requires i < |rows| && rows[i].command == "Say"
    ensures ShowFrom(rows, i).cursor == i
    ensures ShowFrom(rows, i).effects ==
      [Notify(Some(rows[i])), Notify(Some(rows[i]))] + HighlightEffects(rows[i].highlight) + Backdrop(rows[i])
  {
    var d := rows[i];
    var run := [Notify(Some(d))] + HighlightEffects(d.highlight);
    assert ExecuteFrom(rows, i, d) == Outcome(run, i);
    assert ShowFrom(rows, i) == Outcome([Notify(Some(d))] + run + Backdrop(d), i);
  }

  /**
   * A row whose command is empty, "CleanCharacter" or unknown makes, between
   * its notification and its backdrop, no call, a portrait fade-out, or only a
   * warning, and leaves the cursor where it was.
   */
  lemma {:induction false} OtherCommands(rows: seq<DialogueData>, i: nat)
    requires i < |rows| && rows[i].command !in {"SetCharacter", "Say"}
    ensures ShowFrom(rows, i).cursor == i
    ensures rows[i].command == "" ==> ShowFrom(rows, i).effects == [Notify(Some(rows[i]))] + Backdrop(rows[i])
    ensures rows[i].command == "CleanCharacter" ==>
      ShowFrom(rows, i).effects == [Notify(Some(rows[i])), FadeOutCharacter] + Backdrop(rows[i])
    ensures rows[i].command !in {"", "CleanCharacter"} ==>
      ShowFrom(rows, i).effects == [Notify(Some(rows[i])), UnknownCommand(rows[i].command)] + Backdrop(rows[i])
  {
    var d := rows[i];
    var run := if d.command == "" then Outcome([], i) else ExecuteFrom(rows, i, d);
    assert run.cursor == i;
    assert ShowFrom(rows, i) == Outcome([Notify(Some(d))] + run.effects + Backdrop(d), i);
  }

  /** One line of the manager's parsing loop: a blank line is skipped, any other line is parsed. */
  method ReadLine(line: string) returns (row: Option<DialogueData>)
    ensures row == LineRow(line)
  {
    if IsBlank(line) {
      BlankLineSkipped(line);
      return None;
    }
    row := ParseLine(line);
  }

  // ------------------------------------------------------------ the manager

  /** The component itself: the loaded rows, the cursor, the JSON cache file, and what it has emitted so far. */
  class DialogueManager {
    var dialogueList: seq<DialogueData>
    var currentDialogueIndex: nat
    /** The contents of `dialogue.json` in the persistent data directory, if the file exists. */
    var savedJson: Option<seq<DialogueData>>
    /** Every notification and view call made so far, in order. */
    var trace: seq<Effect>

    constructor(saved: Option<seq<DialogueData>>)
      ensures dialogueList == [] && currentDialogueIndex == 0
      ensures savedJson == saved && trace == []
    {
      dialogueList := [];
      currentDialogueIndex := 0;
      savedJson := saved;
      trace := [];
    }

    /**
     * Appends the rows of the LF-split text: every line after the first that
     * is not blank, has ten fields and a 32-bit ID, in line order.
     */
    method ParseCSV(csv: string)
      modifies this
      ensures dialogueList == old(dialogueList) + ManagerRows(csv)
      ensures currentDialogueIndex == old(currentDialogueIndex)
      ensures savedJson == old(savedJson) && trace == old(trace)
    {
      var lines := Split(csv, {'\n'});
      ghost var start := dialogueList;
      var i := 1;
      while i < |lines|
        invariant 1 <= i <= |lines|
        invariant dialogueList == start + Collect(lines[1..i], LineRow)
        invariant currentDialogueIndex == old(currentDialogueIndex)
        invariant savedJson == old(savedJson) && trace == old(trace)
      {
        var row := ReadLine(lines[i]);
        CollectStepFrom(start, lines, i, row);
        AddParsed(row);
        i := i + 1;
      }
      assert lines[1..i] == lines[1..];
    }

    /** Adds the row a line gave, if it gave one. */
    method AddParsed(row: Option<DialogueData>)
      modifies this
      ensures dialogueList == old(dialogueList) + Kept(row)
      ensures currentDialogueIndex == old(currentDialogueIndex)
      ensures savedJson == old(savedJson) && trace == old(trace)
    {
      if row.Some? {
        dialogueList := dialogueList + [row.value];
      }
    }

    /**
     * Uses the cached JSON when it exists and no refresh is forced; otherwise
     * replaces the list by the rows of the downloaded text and writes the cache.
     */
    method LoadDialogueData(isForceUpdate: bool, downloaded: string)
      modifies this
      ensures old(savedJson).Some? && !isForceUpdate ==>
        dialogueList == old(savedJson).value && savedJson == old(savedJson)
      ensures old(savedJson).None? || isForceUpdate ==>
        dialogueList == ManagerRows(downloaded) && savedJson == Some(dialogueList)
      ensures currentDialogueIndex == old(currentDialogueIndex) && trace == old(trace)
    {
      if savedJson.Some? && !isForceUpdate {
        dialogueList := savedJson.value;
        return;
      }
      dialogueList := [];
      ParseCSV(downloaded);
      savedJson := Some(dialogueList);
    }

    /** Fades the black screen out and the portraits in, loads the rows, and shows the row at the cursor. */
    method Start(downloaded: string)
      modifies this
      ensures old(savedJson).Some? ==> dialogueList == old(savedJson).value
      ensures old(savedJson).None? ==> dialogueList == ManagerRows(downloaded)
      ensures old(savedJson).Some? ==> savedJson == old(savedJson)
      ensures old(savedJson).None? ==> savedJson == Some(dialogueList)
      ensures trace == old(trace) + [FadeOutBlackScreen, FadeInCharacter]
                       + ShowFrom(dialogueList, old(currentDialogueIndex)).effects
      ensures currentDialogueIndex == ShowFrom(dialogueList, old(currentDialogueIndex)).cursor
    {
      trace := trace + [FadeOutBlackScreen];
      trace := trace + [FadeInCharacter];
      LoadDialogueData(false, downloaded);
      assert trace == old(trace) + [FadeOutBlackScreen, FadeInCharacter];
      ShowDialogue();
    }

    method ShowDialogue()
      modifies this
      ensures dialogueList == old(dialogueList) && savedJson == old(savedJson)
      ensures trace == old(trace) + ShowFrom(old(dialogueList), old(currentDialogueIndex)).effects
      ensures currentDialogueIndex == ShowFrom(old(dialogueList), old(currentDialogueIndex)).cursor
      decreases Remaining(dialogueList, currentDialogueIndex), 3
    {
      if currentDialogueIndex >= |dialogueList| {
        trace := trace + [Notify(None)];
        trace := trace + [FadeInBlackScreen];
        return;
      }
      var dlg := dialogueList[currentDialogueIndex];
      trace := trace + [Notify(Some(dlg))];
      if dlg.command != "" {
        ExecuteCommand(dlg);
      }
      ghost var shown := trace;
      if dlg.bg != "" {
        trace := trace + [SetBG(dlg.bg)];
      }
      if dlg.cg != "" {
        trace := trace + [SetBG(dlg.cg)];
      }
      assert trace == shown + Backdrop(dlg);
      ghost var run := if dlg.command != "" then ExecuteFrom(old(dialogueList), old(currentDialogueIndex), dlg)
                       else Outcome([], old(currentDialogueIndex));
      TraceRegroup(old(trace), [Notify(Some(dlg))], run.effects, Backdrop(dlg));
    }

    method ExecuteCommand(dialogueData: DialogueData)
      modifies this
      ensures dialogueList == old(dialogueList) && savedJson == old(savedJson)
      ensures trace == old(trace) + ExecuteFrom(old(dialogueList), old(currentDialogueIndex), dialogueData).effects
      ensures currentDialogueIndex == ExecuteFrom(old(dialogueList), old(currentDialogueIndex), dialogueData).cursor
      decreases Remaining(dialogueList, currentDialogueIndex),
        if currentDialogueIndex < |dialogueList| then 2 else 6
    {
      if dialogueData.command == "SetCharacter" {
        HandleSetCharacter(dialogueData);
      } else if dialogueData.command == "Say" {
        trace := trace + [Notify(Some(dialogueData))];
        Process(dialogueData);
      } else if dialogueData.command == "CleanCharacter" {
        trace := trace + [FadeOutCharacter];
      } else {
        trace := trace + [UnknownCommand(dialogueData.command)];
      }
    }

    method HandleSetCharacter(dialogue: DialogueData)
      modifies this
      ensures dialogueList == old(dialogueList) && savedJson == old(savedJson)
      ensures trace == old(trace) + SetCharacterFrom(old(dialogueList), old(currentDialogueIndex), dialogue).effects
      ensures currentDialogueIndex == SetCharacterFrom(old(dialogueList), old(currentDialogueIndex), dialogue).cursor
      decreases Remaining(dialogueList, currentDialogueIndex),
        if currentDialogueIndex < |dialogueList| then 1 else 5
    {
      if dialogue.characterSide == "Left" {
        trace := trace + [SetLeftCharacter(dialogue.characterKey)];
        if dialogue.loadMode == "NoWait" {
          NextDialogue();
        }
      }
      if dialogue.characterSide == "Right" {
        trace := trace + [SetRightCharacter(dialogue.characterKey)];
        if dialogue.loadMode == "NoWait" {
          NextDialogue();
        }
      }
    }

    method NextDialogue()
      modifies this
      ensures dialogueList == old(dialogueList) && savedJson == old(savedJson)
      ensures trace == old(trace) + NextFrom(old(dialogueList), old(currentDialogueIndex)).effects
      ensures currentDialogueIndex == NextFrom(old(dialogueList), old(currentDialogueIndex)).cursor
      decreases Remaining(dialogueList, currentDialogueIndex),
        if currentDialogueIndex < |dialogueList| then 0 else 4
    {
      currentDialogueIndex := currentDialogueIndex + 1;
      ShowDialogue();
    }

    /** Forces a fresh download, then shows the script from its first row. */
    method OnClickForceRefresh(downloaded: string)
      modifies this
      ensures dialogueList == ManagerRows(downloaded) && savedJson == Some(dialogueList)
      ensures trace == old(trace) + ShowFrom(dialogueList, 0).effects
      ensures currentDialogueIndex == ShowFrom(dialogueList, 0).cursor
    {
      LoadDialogueData(true, downloaded);
      currentDialogueIndex := 0;
      ShowDialogue();
    }

    method StartDialogue()
      modifies this
      ensures dialogueList == old(dialogueList) && savedJson == old(savedJson)
      ensures trace == old(trace) + ShowFrom(dialogueList, 0).effects
      ensures currentDialogueIndex == ShowFrom(dialogueList, 0).cursor
    {
      currentDialogueIndex := 0;
      ShowDialogue();
    }

    method Process(dialogueData: DialogueData)
      modifies this
      ensures dialogueList == old(dialogueList) && savedJson == old(savedJson)
      ensures currentDialogueIndex == old(currentDialogueIndex)
      ensures trace == old(trace) + HighlightEffects(dialogueData.highlight)
    {
      if dialogueData.highlight == "Left" {
        trace := trace + [HighlightLeft];
        trace := trace + [DeHighlightRight];
      } else if dialogueData.highlight == "Right" {
        trace := trace + [HighlightRight];
        trace := trace + [DeHighlightLeft];
      } else if dialogueData.highlight == "None" {
        trace := trace + [DeHighlightAll];
      } else {
        trace := trace + [HighlightAll];
      }
    }
  }
}
