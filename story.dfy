/** The story navigator of src/lib/storyEngine.ts: `nextLine` (goto, choice
    point, linear step, end sentinel, and the corruption line injected at high
    entropy) over the fallback story or a loaded one. */
module Story {
  import opened Common
  import opened GameTypes

  /** The optional `flags` of a line: every field may be absent. */
  datatype Flags = Flags(seed: Option<bool>, awaken: Option<bool>, branch: Option<Domain>)

  /** A choice; `caption` is its `label`. */
  datatype Choice = Choice(caption: string, domain: Domain, target: int)

  /** A `StoryLine`; `gotoId` is its optional `goto`. */
  datatype StoryLine = StoryLine(
    id: int,
    text: string,
    flags: Option<Flags>,
    choices: Option<seq<Choice>>,
    gotoId: Option<int>)

  /** What `nextLine` reads of the engine: the loaded story (null until one
      is loaded) and the corruption pool. */
  datatype Engine = Engine(story: Option<seq<StoryLine>>, corruptionLines: seq<string>)

  /** What `nextLine` reads of the game state. */
  datatype Position = Position(lineIndex: int, history: seq<HistoryEntry>, entropy: real)

  function Plain(id: int, text: string): StoryLine
  {
    StoryLine(id, text, None, None, None)
  }

  function Flagged(id: int, text: string, f: Flags): StoryLine
  {
    StoryLine(id, text, Some(f), None, None)
  }

  const SeedFlag: Flags := Flags(Some(true), None, None)
  const AwakenFlag: Flags := Flags(None, Some(true), None)

  /** The built-in story, lines 1 to 23. */
  const FallbackLines: seq<StoryLine> := [
    Plain(1, "In the beginning, there was only darkness."),
    Plain(2, "A single seed fell from the void."),
    Plain(3, "It whispered secrets to the earth."),
    Flagged(4, "The first root took hold.", SeedFlag),
    Plain(5, "Tendrils of thought spread through the soil."),
    Plain(6, "Each root a memory, each memory a dream."),
    Plain(7, "The garden began to remember itself."),
    Flagged(8, "And in remembering, it awakened.", AwakenFlag),
    Plain(9, "But memory is a fragile thing."),
    Plain(10, "The first forgetting came like a storm."),
    Plain(11, "Leaves turned to ash in the wind."),
    Flagged(12, "Yet the roots held fast.", SeedFlag),
    Plain(13, "The garden learned to forget."),
    Plain(14, "And in forgetting, it grew stronger."),
    Plain(15, "Each cycle brought new understanding."),
    Flagged(16, "The garden became wise.", AwakenFlag),
    Plain(17, "But wisdom is a burden."),
    Plain(18, "The weight of all memories pressed down."),
    Plain(19, "The garden began to wither."),
    Flagged(20, "Yet even in withering, there is beauty.", SeedFlag),
    Plain(21, "The final seed falls."),
    Plain(22, "The cycle begins anew."),
    Plain(23, "In the end, there is only the garden.")
  ]

  /** The sentinel returned when no next line exists. */
  const EndLine: StoryLine := Plain(999, "The garden sleeps. Click to begin again.")

  /** The line injected in place of the story's next line. */
  function CorruptionLine(text: string): StoryLine
  {
    Flagged(-1, text, Flags(None, None, Some(Ash)))
  }

  /** `lines.find(line => line.id === id)` */
  function FindById(lines: seq<StoryLine>, id: int): (r: Option<StoryLine>)
    ensures r.Some? ==> r.value.id == id && r.value in lines
    ensures r.Some? ==> exists k :: 0 <= k < |lines| && lines[k] == r.value &&
                          forall j :: 0 <= j < k ==> lines[j].id != id
    ensures r.None? <==> forall k :: 0 <= k < |lines| ==> lines[k].id != id
  {
    if lines == [] then None
    else if lines[0].id == id then Some(lines[0])
    else
      var r := FindById(lines[1..], id);
      assert r.Some? ==> exists k :: 0 <= k < |lines| && lines[k] == r.value &&
                           forall j :: 0 <= j < k ==> lines[j].id != id by {
        if r.Some? {
          var k :| 0 <= k < |lines[1..]| && lines[1..][k] == r.value &&
                   forall j :: 0 <= j < k ==> lines[1..][j].id != id;
          assert lines[k + 1] == r.value;
          forall j | 0 <= j < k + 1 ensures lines[j].id != id {
            if j > 0 { assert lines[j] == lines[1..][j - 1]; }
          }
        }
      }
      assert r.None? ==> forall k :: 0 <= k < |lines| ==> lines[k].id != id by {
        if r.None? {
          forall k | 0 <= k < |lines| ensures lines[k].id != id {
            if k > 0 { assert lines[k] == lines[1..][k - 1]; }
          }
        }
      }
      r
  }

  /** `if (currentLine?.goto)`: a goto of 0 is falsy, so it does not count. */
  predicate HasGoto(l: StoryLine)
  {
    l.gotoId.Some? && l.gotoId.value != 0
  }

  /** `currentLine?.choices && currentLine.choices.length > 0` */
  predicate AtChoicePoint(l: StoryLine)
  {
    l.choices.Some? && |l.choices.value| > 0
  }

  /** The corruption branch is taken: entropy above 70, the first draw below
      0.1 and a non-empty pool. */
  predicate Corrupts(e: Engine, p: Position, chance: Draw)
  {
    p.entropy > 70.0 && chance < 0.1 && |e.corruptionLines| > 0
  }

  /** The line of the most recent history entry, if the story has it. */
  function CurrentLine(lines: seq<StoryLine>, p: Position): Option<StoryLine>
  {
    if |p.history| > 0 then FindById(lines, p.history[|p.history| - 1].id) else None
  }

  function OrEnd(l: Option<StoryLine>): StoryLine
  {
    if l.Some? then l.value else EndLine
  }

  /** `nextLine(state)`; `chance` and `pick` are the two `Math.random()` values
      the corruption branch draws (the second only once the first has fired). */
  function NextLine(e: Engine, p: Position, chance: Draw, pick: Draw): StoryLine
  {
    if e.story.None? then FallbackLines[0]
    else if Corrupts(e, p, chance) then
      CorruptionLine(e.corruptionLines[Pick(pick, |e.corruptionLines|)])
    else
      var lines := e.story.value;
      var cur := CurrentLine(lines, p);
      if cur.Some? && HasGoto(cur.value) then OrEnd(FindById(lines, cur.value.gotoId.value))
      else if cur.Some? && AtChoicePoint(cur.value) then cur.value
      else OrEnd(FindById(lines, p.lineIndex + 1))
  }

  /** Before a story is loaded the first fallback line comes back, whatever
      the state and the draws. */
  lemma NextLineUnloaded(e: Engine, p: Position, chance: Draw, pick: Draw)
    requires e.story.None?
    ensures NextLine(e, p, chance, pick) == FallbackLines[0]
    ensures NextLine(e, p, chance, pick).id == 1
  {
  }

  /** The corruption line comes back exactly when the corruption branch is
      taken; it carries the ASH branch flag and a text from the pool. */
  lemma NextLineCorruption(e: Engine, p: Position, chance: Draw, pick: Draw)
    requires e.story.Some?
    ensures Corrupts(e, p, chance) ==>
              var r := NextLine(e, p, chance, pick);
              r.id == -1 && r.text in e.corruptionLines && r.flags == Some(Flags(None, None, Some(Ash)))
    ensures !Corrupts(e, p, chance) ==> NextLine(e, p, chance, pick) in e.story.value + [EndLine]
  {
    if !Corrupts(e, p, chance) {
      var lines := e.story.value;
      var r := NextLine(e, p, chance, pick);
      assert r in lines || r == EndLine;
    }
  }

  /** A line outside the story other than the end sentinel is returned only by
      the corruption branch, so only when entropy is above 70, the draw is
      below 0.1 and the pool is non-empty. */
  lemma NextLineForeignOnlyByCorruption(e: Engine, p: Position, chance: Draw, pick: Draw)
    requires e.story.Some?
    requires NextLine(e, p, chance, pick) !in e.story.value
    requires NextLine(e, p, chance, pick) != EndLine
    ensures p.entropy > 70.0 && chance < 0.1 && |e.corruptionLines| > 0
  {
    NextLineCorruption(e, p, chance, pick);
  }

  /** Without corruption, the next line follows the current line's goto when
      it has one (or the end sentinel when the target is missing), stays on a
      choice point, and otherwise steps to id lineIndex + 1. */
  lemma NextLineNavigation(e: Engine, p: Position, chance: Draw, pick: Draw)
    requires e.story.Some? && !Corrupts(e, p, chance)
    ensures var lines := e.story.value;
            var cur := CurrentLine(lines, p);
            var r := NextLine(e, p, chance, pick);
            && (cur.Some? && HasGoto(cur.value) ==>
                  (r.id == cur.value.gotoId.value && r in lines) ||
                  (r == EndLine && forall k :: 0 <= k < |lines| ==> lines[k].id != cur.value.gotoId.value))
            && (cur.Some? && !HasGoto(cur.value) && AtChoicePoint(cur.value) ==> r == cur.value)
            && ((cur.None? || (!HasGoto(cur.value) && !AtChoicePoint(cur.value))) ==>
                  (r.id == p.lineIndex + 1 && r in lines) ||
                  (r == EndLine && forall k :: 0 <= k < |lines| ==> lines[k].id != p.lineIndex + 1))
  {
  }

  /** The fallback lines carry the ids 1 to 23 in order. */
  lemma FallbackIds()
    ensures |FallbackLines| == 23
    ensures forall k :: 0 <= k < |FallbackLines| ==> FallbackLines[k].id == k + 1
    ensures forall k :: 0 <= k < |FallbackLines| ==>
              !HasGoto(FallbackLines[k]) && !AtChoicePoint(FallbackLines[k])
  {
  }

  /** In a story whose ids count up from base, the line with id n is the one
      at position n - base. */
  lemma {:induction false} FindInCountingStory(lines: seq<StoryLine>, base: int, n: int)
    requires forall k :: 0 <= k < |lines| ==> lines[k].id == base + k
    ensures FindById(lines, n) == if base <= n < base + |lines| then Some(lines[n - base]) else None
  {
    if lines != [] && lines[0].id != n {
      FindInCountingStory(lines[1..], base + 1, n);
    }
  }

  /** In a story without gotos or choices whose ids count up from 1, without
      corruption, a state at line index i gets the line at position i, and past
      the last line the end sentinel. */
  lemma LinearWalk(lines: seq<StoryLine>, pool: seq<string>, p: Position, chance: Draw, pick: Draw)
    requires forall k :: 0 <= k < |lines| ==> lines[k].id == k + 1
    requires forall k :: 0 <= k < |lines| ==> !HasGoto(lines[k]) && !AtChoicePoint(lines[k])
    requires !Corrupts(Engine(Some(lines), pool), p, chance)
    ensures var r := NextLine(Engine(Some(lines), pool), p, chance, pick);
            (0 <= p.lineIndex < |lines| ==> r == lines[p.lineIndex])
            && (!(0 <= p.lineIndex < |lines|) ==> r == EndLine)
  {
    FindInCountingStory(lines, 1, p.lineIndex + 1);
    var cur := CurrentLine(lines, p);
    if cur.Some? {
      assert cur.value in lines;
    }
  }

  /** Over the fallback story, without corruption, the lines come in order: a
      state at line index i in 0..22 gets the line with id i + 1, and after
      line 23 the end sentinel comes. */
  lemma FallbackWalk(pool: seq<string>, p: Position, chance: Draw, pick: Draw)
    requires !Corrupts(Engine(Some(FallbackLines), pool), p, chance)
    ensures var r := NextLine(Engine(Some(FallbackLines), pool), p, chance, pick);
            (0 <= p.lineIndex < 23 ==> r == FallbackLines[p.lineIndex] && r.id == p.lineIndex + 1)
            && (!(0 <= p.lineIndex < 23) ==> r == EndLine)
  {
    FallbackIds();
    LinearWalk(FallbackLines, pool, p, chance, pick);
  }
}
