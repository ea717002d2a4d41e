/**
 * `DialogueScriptTest`: the in-game tester panel. Left Ctrl + = shows or hides the
 * panel and pauses the dialogue while it is shown; the run button reads a
 * "chapter" or "chapter.branch" command, cancels whatever is playing and asks
 * the dialogue manager to play that branch.
 */
module ScriptTester {
  import opened Optional
  import opened Text
  import opened Int32Text

  /** What the typed command asks for, after the early returns of the run button. */
  datatype Command =
    | NoInput                           // blank after trimming: nothing to play
    | BadChapter(part: string)          // the part before the first '.' is not an integer
    | BadBranch(part: string)           // the part after the first '.' is not an integer
    | Play(chapter: int, branch: int)

  /** The calls the tester makes on the dialogue manager, and its warnings. */
  datatype TesterAction =
    | CancelCurrent
    | PlayBranch(chapter: int, branch: int)
    | WarnChapter(part: string)
    | WarnBranch(part: string)

  /** Shown state of the panel and the pause flag the tester writes into the manager. */
  datatype Panel = Panel(visible: bool, paused: bool)

  /**
   * Reads a command: trim, split on '.', then read the parts; blank input is
   * no command at all.
   */
  function ParseCommand(input: string): (r: Command)
    ensures r == NoInput <==> IsBlank(input)
    ensures r.BadChapter? ==> ParseInt32(r.part) == None
    ensures r.BadBranch? ==> ParseInt32(r.part) == None
    ensures r.Play? ==> InInt32(r.chapter) && InInt32(r.branch)
  {
    TrimEmptyIffBlank(input);
    var text := Trim(input);
    if text == [] then NoInput else ReadParts(Split(text, {'.'}))
  }

  /**
   * The first part is the chapter, the second (when there is one) the
   * branch, which is 0 otherwise; parts after the second are ignored.
   */
  function ReadParts(parts: seq<string>): (r: Command)
    requires |parts| >= 1
    ensures r != NoInput
    ensures r.BadChapter? ==> ParseInt32(r.part) == None
    ensures r.BadBranch? ==> ParseInt32(r.part) == None
    ensures r.Play? ==> InInt32(r.chapter) && InInt32(r.branch)
    ensures ParseInt32(parts[0]).None? <==> r == BadChapter(parts[0])
    ensures ParseInt32(parts[0]).Some? && |parts| == 1 ==> r == Play(ParseInt32(parts[0]).value, 0)
    ensures ParseInt32(parts[0]).Some? && |parts| > 1 ==> (ParseInt32(parts[1]).None? <==> r == BadBranch(parts[1]))
    ensures ParseInt32(parts[0]).Some? && |parts| > 1 && ParseInt32(parts[1]).Some? ==>
      r == Play(ParseInt32(parts[0]).value, ParseInt32(parts[1]).value)
  {
    match ParseInt32(parts[0])
    case None => BadChapter(parts[0])
    case Some(chapter) =>
      if |parts| > 1 then
        match ParseInt32(parts[1])
        case None => BadBranch(parts[1])
        case Some(branch) => Play(chapter, branch)
      else Play(chapter, 0)
  }

  /**
   * What the run button does after cancelling: a warning for a bad part, the
   * branch to play for a good command, nothing for blank input.
   */
  function Answer(command: Command): (r: seq<TesterAction>)
    ensures |r| <= 1
    ensures r == [] <==> command == NoInput
    ensures command.Play? <==> r != [] && r[0].PlayBranch?
    ensures command.Play? ==> r[0].chapter == command.chapter && r[0].branch == command.branch
  {
    match command
    case NoInput => []
    case BadChapter(part) => [WarnChapter(part)]
    case BadBranch(part) => [WarnBranch(part)]
    case Play(chapter, branch) => [PlayBranch(chapter, branch)]
  }

  /** Left Ctrl + =: flip the panel and make the pause flag follow the new visibility. */
  function Toggle(p: Panel): (r: Panel)
    ensures r.visible == !p.visible
    ensures r.paused == r.visible
  {
    var now := !p.visible;
    Panel(now, now)
  }

  // ---------------------------------------------------------------- command parsing

  /**
   * The whole rule for any input that is not blank, read off the parts of its
   * trimmed text: a chapter part that does not parse is rejected; otherwise a
   * missing branch part means branch 0, a branch part that does not parse is
   * rejected, and two parsed parts are played.
   */
  lemma {:induction false} CommandRule(input: string)
    requires !IsBlank(input)
    ensures var p := Split(Trim(input), {'.'}); var r := ParseCommand(input);
      && (ParseInt32(p[0]).None? <==> r == BadChapter(p[0]))
      && (ParseInt32(p[0]).Some? && |p| == 1 ==> r == Play(ParseInt32(p[0]).value, 0))
      && (ParseInt32(p[0]).Some? && |p| > 1 ==> (ParseInt32(p[1]).None? <==> r == BadBranch(p[1])))
      && (ParseInt32(p[0]).Some? && |p| > 1 && ParseInt32(p[1]).Some? ==>
            r == Play(ParseInt32(p[0]).value, ParseInt32(p[1]).value))
  {
    TrimEmptyIffBlank(input);
    ParseNonBlank(input);
  }

  /** A string without '.' is a single part. */
  lemma {:induction false} SplitWhole(s: string)
    requires '.' !in s
    ensures Split(s, {'.'}) == [s]
  {
    assert Join([s], '.') == s;
    SplitJoin([s], '.');
  }

  /** A command that is already trimmed and not empty is read straight from its parts. */
  lemma {:induction false} ParseTrimmed(text: string)
    requires IsTrimmed(text) && text != []
    ensures ParseCommand(text) == ReadParts(Split(text, {'.'}))
  {
    TrimOfTrimmed(text);
  }

  /** Trailing text after a head with no whitespace at its ends only loses its own trailing whitespace. */
  lemma {:induction false} TrimAfterHead(head: string, tail: string)
    requires head != [] && IsTrimmed(head)
    ensures Trim(head + tail) == head + TrimEnd(tail)
  {
    TrimStartOfTrimmed(head + tail);
    TrimEndConcat(head, tail);
  }

  /** A bare chapter number plays that chapter's branch 0. */
  lemma {:induction false} PlaysChapter(c: int)
    requires InInt32(c)
    ensures ParseCommand(IntToString(c)) == Play(c, 0)
  {
    var s := IntToString(c);
    SplitWhole(s);
    ParseIntToString(c);
    ParseTrimmed(s);
  }

  /** "c.b" plays chapter c, branch b: the command reads back what was written. */
  lemma {:induction false} PlaysChapterBranch(c: int, b: int)
    requires InInt32(c) && InInt32(b)
    ensures ParseCommand(IntToString(c) + "." + IntToString(b)) == Play(c, b)
  {
    var sc, sb := IntToString(c), IntToString(b);
    var text := sc + "." + sb;
    assert text == sc + ['.'] + sb;
    SplitWhole(sc);
    SplitWhole(sb);
    SplitAtSeparator(sc, '.', sb, {'.'});
    assert Split(text, {'.'}) == [sc, sb];
    ParseIntToString(c);
    ParseIntToString(b);
    assert IsTrimmed(text);
    ParseTrimmed(text);
  }

  /** Two separator-free parts joined by '.' and followed by a '.' come first in the split. */
  lemma {:induction false} SplitFirstTwo(a: string, b: string, t: string)
    requires '.' !in a && '.' !in b
    ensures |Split(a + ['.'] + (b + ['.'] + t), {'.'})| > 1
    ensures Split(a + ['.'] + (b + ['.'] + t), {'.'})[0] == a
    ensures Split(a + ['.'] + (b + ['.'] + t), {'.'})[1] == b
  {
    SplitAtSeparator(a, '.', b + ['.'] + t, {'.'});
    SplitAtSeparator(b, '.', t, {'.'});
    SplitWhole(a);
    SplitWhole(b);
  }

  /** Input that is not blank is read from the parts of its trimmed text. */
  lemma {:induction false} ParseNonBlank(input: string)
    requires Trim(input) != []
    ensures ParseCommand(input) == ReadParts(Split(Trim(input), {'.'}))
  {
  }

  /** Two integer parts play that chapter and branch. */
  lemma {:induction false} ReadsTwoNumbers(parts: seq<string>, c: int, b: int)
    requires |parts| > 1 && ParseInt32(parts[0]) == Some(c) && ParseInt32(parts[1]) == Some(b)
    ensures ReadParts(parts) == Play(c, b)
  {
  }

  /** Whatever follows a second '.' is ignored: "1.2.3" plays chapter 1, branch 2. */
  lemma {:induction false} ExtraPartsIgnored(c: int, b: int, tail: string)
    requires InInt32(c) && InInt32(b)
    ensures ParseCommand(IntToString(c) + "." + IntToString(b) + "." + tail) == Play(c, b)
  {
    ParseIntToString(c);
    ParseIntToString(b);
    TwoPartsThenTail(IntToString(c), IntToString(b), tail, c, b);
  }

  /** Regroups a dotted command string; it only helps the solver. */
  lemma {:induction false} DotsRegroup(a: string, b: string, t: string)
    ensures a + "." + b + "." + t == a + ['.'] + (b + ['.'] + t)
  {
  }

  lemma {:induction false} TwoPartsThenTail(sc: string, sb: string, tail: string, c: int, b: int)
    requires sc != [] && IsTrimmed(sc) && '.' !in sc && '.' !in sb
    requires ParseInt32(sc) == Some(c) && ParseInt32(sb) == Some(b)
    ensures ParseCommand(sc + "." + sb + "." + tail) == Play(c, b)
  {
    var head := sc + "." + sb + ".";
    assert IsTrimmed(head);
    TrimAfterHead(head, tail);
    var t := TrimEnd(tail);
    DotsRegroup(sc, sb, t);
    SplitFirstTwo(sc, sb, t);
    ParseNonBlank(head + tail);
    ReadsTwoNumbers(Split(head + t, {'.'}), c, b);
    assert sc + "." + sb + "." + tail == head + tail;
  }

  /** A command starting with '.' has an empty chapter part, so ".2" is rejected. */
  lemma {:induction false} EmptyChapterRejected(tail: string)
    ensures ParseCommand("." + tail) == BadChapter("")
  {
    var t := TrimEnd(tail);
    TrimAfterHead(".", tail);
    SplitCons('.', t, {'.'});
    assert Split("." + t, {'.'})[0] == "";
    ParseNonBlank("." + tail);
    ParseRejectsBareSign("");
  }

  /** A chapter followed by a '.' and nothing else has an empty branch part, so "1." is rejected. */
  lemma {:induction false} EmptyBranchRejected(c: int)
    requires InInt32(c)
    ensures ParseCommand(IntToString(c) + ".") == BadBranch("")
  {
    var sc := IntToString(c);
    var text := sc + ".";
    assert text == sc + ['.'] + [];
    SplitAtSeparator(sc, '.', [], {'.'});
    SplitWhole(sc);
    assert Split(text, {'.'}) == [sc, ""];
    ParseIntToString(c);
    ParseRejectsBareSign("");
    assert IsTrimmed(text);
    ParseTrimmed(text);
  }

  // ---------------------------------------------------------------- panel toggle

  /** Two presses show the panel as before, and the pause flag then matches it. */
  lemma {:induction false} ToggleTwice(p: Panel)
    ensures Toggle(Toggle(p)).visible == p.visible
    ensures Toggle(Toggle(p)).paused == p.visible
    ensures p.paused == p.visible ==> Toggle(Toggle(p)) == p
  {
  }

  /** The tester component: the panel's state and the calls it has made so far. */
  class DialogueScriptTest {
    var testerVisible: bool
    var pauseForInput: bool
    var actions: seq<TesterAction>

    /** `visible` is how the scene shows the panel before `Start`; `paused` the manager's flag. */
    constructor(visible: bool, paused: bool)
      ensures testerVisible == visible && pauseForInput == paused && actions == []
    {
      testerVisible := visible;
      pauseForInput := paused;
      actions := [];
    }

    function State(): Panel
      reads this
    {
      Panel(testerVisible, pauseForInput)
    }

    /** Hides the panel; the pause flag is left as it is. */
    method Start()
      modifies this
      ensures !testerVisible
      ensures pauseForInput == old(pauseForInput) && actions == old(actions)
    {
      testerVisible := false;
    }

    /** One frame: only the left Ctrl key held together with = pressed in this frame toggles the panel. */
    method Update(ctrlHeld: bool, equalsDown: bool)
      modifies this
      ensures State() == if ctrlHeld && equalsDown then Toggle(old(State())) else old(State())
      ensures actions == old(actions)
    {
      if ctrlHeld && equalsDown {
        var now := !testerVisible;
        testerVisible := now;
        pauseForInput := now;
      }
    }

    /** The run button: records the cancel, then the warning or the branch to play. */
    method RunCommand(input: string)
      modifies this
      ensures actions == old(actions) + [CancelCurrent] + Answer(ParseCommand(input))
      ensures State() == old(State())
    {
      actions := actions + [CancelCurrent];
      var text := Trim(input);
      if text == [] {
        TrimEmptyIffBlank(input);
        return;
      }
      var parts := Split(text, {'.'});
      assert ParseCommand(input) == ReadParts(parts);
      var chapter := ParseInt32(parts[0]);
      if chapter.None? {
        actions := actions + [WarnChapter(parts[0])];
        return;
      }
      var branch := 0;
      if |parts| > 1 {
        var parsed := ParseInt32(parts[1]);
        if parsed.None? {
          actions := actions + [WarnBranch(parts[1])];
          return;
        }
        branch := parsed.value;
      }
      actions := actions + [PlayBranch(chapter.value, branch)];
    }
  }
}
