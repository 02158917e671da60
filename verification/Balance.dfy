/** The push scan passes over instructions that move the stack pointer without naming it: the
  words it promises are on the stack exactly when what follows a push gives back what it takes. */
module Balance {
  import opened Values
  import opened InsnModel
  import opened Port
  import opened StackEffects
  import opened PushSequence

  // -- what the stretch does to the stack ----------------------------------------------------------

  /** What is not known beforehand of an instruction: the word pushed, how far the stack
    pointer is moved to elsewhere, and the words that are put below it. */
  datatype Input = Input(word: int, shift: int, below: map<int, int>)

  function EffectOn(h: Head): Effect { EffectOf(h.1.mnem) }

  function Filled(s: Stack, lo: int, below: map<int, int>): map<int, int> {
    map a | a in s.words.Keys + below.Keys :: if a in below && lo <= a < s.sp then below[a] else s.Load(a)
  }

  function Executed(h: Head, input: Input, s: Stack, size: nat): Stack {
    if IsPush(h) then Stack(s.sp - size, s.words[s.sp - size := input.word])
    else
      match EffectOn(h)
      case Still => s
      case Grows(words) => Stack(s.sp - words * size, Filled(s, s.sp - words * size, input.below))
      case Shrinks(words) => s.(sp := s.sp + words * size)
      case Elsewhere =>
        var lowest := if input.shift < 0 then s.sp + input.shift else s.sp;
        Stack(s.sp + input.shift, Filled(s, lowest, input.below))
  }

  function Execute(heads: seq<Head>, inputs: seq<Input>, s: Stack, size: nat): Stack
    requires |inputs| == |heads|
  {
    if heads == [] then s
    else
      var n := |heads| - 1;
      Executed(heads[n], inputs[n], Execute(heads[..n], inputs[..n], s, size), size)
  }

  function Words(inputs: seq<Input>): (r: seq<int>)
    ensures |r| == |inputs| && forall i :: 0 <= i < |r| ==> r[i] == inputs[i].word
  {
    seq(|inputs|, i requires 0 <= i < |inputs| => inputs[i].word)
  }

  ghost predicate OnTop(s: Stack, pushed: seq<int>, size: nat) { Holds(s, s.sp + |pushed| * size, pushed, size) }

  /** Whatever the stack held and whatever is put on it, word k above the stack pointer is the
    k-th pushed from the end. */
  ghost predicate AlwaysHolds(heads: seq<Head>, size: nat) {
    forall inputs: seq<Input>, s: Stack :: |inputs| == |heads| ==>
      OnTop(Execute(heads, inputs, s, size), PushedValues(heads, Words(inputs)), size)
  }

  // -- a check of the instructions alone --------------------------------------------------------------

  /** Words on the stack above the last push; or a pushed word may be lost already. */
  datatype Level = Unpushed | Above(words: nat) | Lost

  function Next(level: Level, h: Head): Level {
    if IsPush(h) then (if level == Unpushed || level == Above(0) then Above(0) else Lost)
    else if !level.Above? then level
    else
      match EffectOn(h)
      case Still => level
      case Grows(words) => Above(level.words + words)
      case Shrinks(words) => if words <= level.words then Above(level.words - words) else Lost
      case Elsewhere => Lost
  }

  function LevelOf(heads: seq<Head>): Level {
    if heads == [] then Unpushed else Next(LevelOf(heads[..|heads| - 1]), heads[|heads| - 1])
  }

  /** Nothing after a push takes the stack pointer above the pushed word or elsewhere, and what
    it takes below is given back before the next push and before the end. */
  predicate Balanced(heads: seq<Head>) { LevelOf(heads) == Unpushed || LevelOf(heads) == Above(0) }

  // -- balanced stretches hold ------------------------------------------------------------------------

  /** The pushed words are there, with `level.words` others on top of them. */
  ghost predicate HeldAt(level: Level, s: Stack, pushed: seq<int>, size: nat) {
    match level
    case Unpushed => pushed == []
    case Above(words) => OnTop(s.(sp := s.sp + words * size), pushed, size)
    case Lost => true
  }

  lemma PushIsHeld(level: Level, h: Head, input: Input, s: Stack, pushed: seq<int>, size: nat)
    requires size > 0 && IsPush(h) && HeldAt(level, s, pushed, size)
    ensures HeldAt(Next(level, h), Executed(h, input, s, size), pushed + [input.word], size)
  {
    if level == Unpushed || level == Above(0) {
      var next := Executed(h, input, s, size);
      assert s.(sp := s.sp + 0 * size) == s;
      assert next.(sp := next.sp + 0 * size) == next;
      Times(|pushed|, size);
      PushHolds(s, input.word, next, s.sp + |pushed| * size, pushed, size);
    }
  }

  lemma WordsAreHeld(s: Stack, s': Stack, at: int, pushed: seq<int>, size: nat)
    requires OnTop(s.(sp := at), pushed, size) && size > 0 && forall a :: at <= a ==> s'.Load(a) == s.Load(a)
    ensures OnTop(s'.(sp := at), pushed, size)
  {
    forall k | 0 <= k < |pushed| ensures s'.Load(at + k * size) == pushed[|pushed| - 1 - k] {
      Times(k, size);
      assert s.(sp := at).Load(at + k * size) == pushed[|pushed| - 1 - k];
    }
  }

  lemma OthersHold(level: Level, h: Head, input: Input, s: Stack, pushed: seq<int>, size: nat)
    requires size > 0 && !IsPush(h) && HeldAt(level, s, pushed, size)
    ensures HeldAt(Next(level, h), Executed(h, input, s, size), pushed, size)
  {
    var next := Executed(h, input, s, size);
    if level.Above? && Next(level, h).Above? {
      var at := s.sp + level.words * size;
      Times(level.words, size);
      assert next.sp + Next(level, h).words * size == at by { Moves(h, level.words, Next(level, h).words, size); }
      WordsAreHeld(s, next, at, pushed, size);
    }
  }

  lemma Moves(h: Head, words: nat, after: nat, size: nat)
    requires !IsPush(h) && Next(Above(words), h) == Above(after)
    ensures EffectOn(h).Grows? ==> after * size == words * size + EffectOn(h).words * size
    ensures EffectOn(h).Shrinks? ==> after * size == words * size - EffectOn(h).words * size
  {}

  lemma {:induction false} WordsHold(heads: seq<Head>, inputs: seq<Input>, s: Stack, size: nat)
    requires |inputs| == |heads| && size > 0
    ensures HeldAt(LevelOf(heads), Execute(heads, inputs, s, size), PushedValues(heads, Words(inputs)), size)
  {
    if heads != [] {
      var n := |heads| - 1;
      assert Words(inputs)[..n] == Words(inputs[..n]);
      hide HeldAt, Executed, Next;
      WordsHold(heads[..n], inputs[..n], s, size);
      var before, pushed := Execute(heads[..n], inputs[..n], s, size), PushedValues(heads[..n], Words(inputs[..n]));
      if IsPush(heads[n]) {
        PushIsHeld(LevelOf(heads[..n]), heads[n], inputs[n], before, pushed, size);
      } else {
        OthersHold(LevelOf(heads[..n]), heads[n], inputs[n], before, pushed, size);
      }
    } else {
      assert HeldAt(Unpushed, s, [], size);
    }
  }

  // -- unbalanced stretches do not: one marked push ---------------------------------------------------

  /** A one is pushed by head `f` and zeros by the others; head `j` moves the stack pointer by
    `shift`; and what is put below the stack pointer clears the address of the mark. */
  function Marking(n: nat, f: int, mark: int, j: int, shift: int): (r: seq<Input>)
    ensures |r| == n
  {
    seq(n, i requires 0 <= i < n => Input(if i == f then 1 else 0, if i == j then shift else 0, map[mark := 0]))
  }

  lemma MarkingPrefix(n: nat, m: nat, f: int, mark: int, j: int, shift: int)
    requires m <= n
    ensures Marking(n, f, mark, j, shift)[..m] == Marking(m, f, mark, j, shift)
  {}

  const BLANK := Stack(0, map[])

  function Marked(heads: seq<Head>, f: int, mark: int, j: int, shift: int, size: nat): Stack {
    Execute(heads, Marking(|heads|, f, mark, j, shift), BLANK, size)
  }

  lemma MarkedGoesOn(heads: seq<Head>, f: int, mark: int, j: int, shift: int, size: nat)
    requires heads != []
    ensures var n := |heads| - 1;
      Marked(heads, f, mark, j, shift, size) ==
        Executed(heads[n], Input(if n == f then 1 else 0, if n == j then shift else 0, map[mark := 0]),
                 Marked(heads[..n], f, mark, j, shift, size), size)
  {
    MarkingPrefix(|heads|, |heads| - 1, f, mark, j, shift);
    hide Executed;
  }

  /** Nothing but the mark is ever on the stack. */
  lemma {:induction false} OnlyTheMark(heads: seq<Head>, f: nat, mark: int, j: int, shift: int, size: nat)
    requires f < |heads| && IsPush(heads[f]) ==> mark == Marked(heads[..f], f, mark, j, shift, size).sp - size
    requires f < |heads| ==> IsPush(heads[f])
    ensures forall a :: a != mark || |heads| <= f ==> Marked(heads, f, mark, j, shift, size).Load(a) == 0
  {
    if heads != [] {
      var n := |heads| - 1;
      MarkedGoesOn(heads, f, mark, j, shift, size);
      if f < n { assert heads[..n][..f] == heads[..f]; }
      OnlyTheMark(heads[..n], f, mark, j, shift, size);
      var before := Marked(heads[..n], f, mark, j, shift, size);
      forall a | a != mark || |heads| <= f ensures Marked(heads, f, mark, j, shift, size).Load(a) == 0 {
        assert before.Load(a) == 0;
      }
    }
  }

  /** The mark has been overwritten, or is `words` words below the stack pointer. */
  predicate Gone(s: Stack, mark: int, words: int, size: nat) {
    s.Load(mark) == 0 || (words >= 1 && s.sp == mark + words * size)
  }

  lemma FilledReads(s: Stack, lo: int, below: map<int, int>, a: int)
    ensures Stack(0, Filled(s, lo, below)).Load(a) == if a in below && lo <= a < s.sp then below[a] else s.Load(a)
  {}

  lemma Reach(words: int, n: int, size: nat)
    requires size > 0
    ensures (words - n) * size == words * size - n * size && (words + n) * size == words * size + n * size
    ensures words <= n ==> words * size <= n * size
    ensures words >= 1 ==> words * size > 0
  {
    if words <= n { assert (n - words) * size >= 0; }
  }

  lemma GoneUnderPush(h: Head, input: Input, s: Stack, mark: int, words: int, size: nat)
    requires size > 0 && Gone(s, mark, words, size) && IsPush(h) && input.word == 0
    ensures Gone(Executed(h, input, s, size), mark, words - 1, size)
  {
    Reach(words, 1, size);
  }

  lemma GoneUnderWords(h: Head, input: Input, s: Stack, mark: int, words: int, size: nat)
    requires size > 0 && Gone(s, mark, words, size) && !IsPush(h) && EffectOn(h).Grows? && input.below == map[mark := 0]
    ensures Gone(Executed(h, input, s, size), mark, words - EffectOn(h).words, size)
  {
    var n := EffectOn(h).words;
    hide Filled, EffectOf;
    FilledReads(s, s.sp - n * size, input.below, mark);
    Reach(words, n, size);
  }

  /** Once the mark is below the stack pointer, it does not come back. */
  lemma GoneStays(h: Head, input: Input, s: Stack, mark: int, words: int, size: nat) returns (now: int)
    requires size > 0 && Gone(s, mark, words, size)
    requires input.word == 0 && input.shift == 0 && input.below == map[mark := 0]
    ensures Gone(Executed(h, input, s, size), mark, now, size)
  {
    hide Filled, EffectOf;
    now := words;
    if IsPush(h) {
      now := words - 1;
      GoneUnderPush(h, input, s, mark, words, size);
    } else if EffectOn(h).Grows? {
      now := words - EffectOn(h).words;
      GoneUnderWords(h, input, s, mark, words, size);
    } else if EffectOn(h).Shrinks? {
      now := words + EffectOn(h).words;
      Reach(words, EffectOn(h).words, size);
    } else if EffectOn(h).Elsewhere? {
      FilledReads(s, s.sp, input.below, mark);
    }
  }

  lemma {:induction false} GoneForGood(heads: seq<Head>, m: nat, f: nat, mark: int, words: int, j: int, shift: int, size: nat) returns (now: int)
    requires f < m <= |heads| && j < m && size > 0 && Gone(Marked(heads[..m], f, mark, j, shift, size), mark, words, size)
    ensures Gone(Marked(heads, f, mark, j, shift, size), mark, now, size)
    decreases |heads|
  {
    hide Marked, Executed, Gone;
    if m == |heads| {
      assert heads[..m] == heads;
      now := words;
    } else {
      var n := |heads| - 1;
      assert heads[..n][..m] == heads[..m];
      var before := GoneForGood(heads[..n], m, f, mark, words, j, shift, size);
      MarkedGoesOn(heads, f, mark, j, shift, size);
      now := GoneStays(heads[n], Input(0, 0, map[mark := 0]), Marked(heads[..n], f, mark, j, shift, size), mark, before, size);
    }
  }

  /** Where a push is among the pushed values. */
  lemma {:induction false} PushIsAt(heads: seq<Head>, values: seq<int>, f: nat)
    requires |values| == |heads| && f < |heads| && IsPush(heads[f])
    ensures |PushesOf(heads[..f])| < |PushedValues(heads, values)|
    ensures PushedValues(heads, values)[|PushesOf(heads[..f])|] == values[f]
  {
    var n := |heads| - 1;
    if f < n {
      assert heads[..n][..f] == heads[..f];
      PushIsAt(heads[..n], values[..n], f);
    }
  }

  function WordsAfter(heads: seq<Head>, f: nat): int
    requires f < |heads|
  {
    |PushesOf(heads)| - 1 - |PushesOf(heads[..f])|
  }

  /** If the promise holds, the mark is where the promise has it, and not lost. */
  lemma MarkIsInPlace(heads: seq<Head>, f: nat, mark: int, j: int, shift: int, size: nat)
    requires AlwaysHolds(heads, size) && f < |heads| && IsPush(heads[f])
    requires mark == Marked(heads[..f], f, mark, j, shift, size).sp - size
    ensures var s := Marked(heads, f, mark, j, shift, size);
      WordsAfter(heads, f) >= 0 && s.sp + WordsAfter(heads, f) * size == mark && s.Load(mark) == 1
  {
    var inputs := Marking(|heads|, f, mark, j, shift);
    var s, pushed := Execute(heads, inputs, BLANK, size), PushedValues(heads, Words(inputs));
    assert OnTop(s, pushed, size);
    PushIsAt(heads, Words(inputs), f);
    var k := WordsAfter(heads, f);
    assert pushed[|pushed| - 1 - k] == 1 && s.Load(s.sp + k * size) == 1;
    OnlyTheMark(heads, f, mark, j, shift, size);
    Times(k, size);
  }

  // -- where the stack pointer is ------------------------------------------------------------------------

  /** The marks do not move the stack pointer. */
  lemma {:induction false} MarksStandStill(heads: seq<Head>, f: int, mark: int, g: int, other: int, j: int, shift: int, size: nat)
    ensures Marked(heads, f, mark, j, shift, size).sp == Marked(heads, g, other, j, shift, size).sp
  {
    if heads != [] {
      MarkedGoesOn(heads, f, mark, j, shift, size);
      MarkedGoesOn(heads, g, other, j, shift, size);
      MarksStandStill(heads[..|heads| - 1], f, mark, g, other, j, shift, size);
    }
  }

  /** The last push of a stretch that is level above it, and how far down the stack pointer is. */
  lemma {:induction false} LastPush(heads: seq<Head>) returns (i: nat)
    requires LevelOf(heads).Above?
    ensures i < |heads| && IsPush(heads[i]) && WordsAfter(heads, i) == 0
    ensures forall f, mark, j, shift, size: nat ::
      Marked(heads, f, mark, j, shift, size).sp == Marked(heads[..i], f, mark, j, shift, size).sp - size - LevelOf(heads).words * size
  {
    var n := |heads| - 1;
    if IsPush(heads[n]) {
      i := n;
      forall f, mark, j, shift, size: nat
        ensures Marked(heads, f, mark, j, shift, size).sp == Marked(heads[..i], f, mark, j, shift, size).sp - size - LevelOf(heads).words * size
      {
        MarkedGoesOn(heads, f, mark, j, shift, size);
        assert LevelOf(heads).words == 0;
      }
    } else {
      i := LastPush(heads[..n]);
      assert heads[..n][..i] == heads[..i];
      forall f, mark, j, shift, size: nat
        ensures Marked(heads, f, mark, j, shift, size).sp == Marked(heads[..i], f, mark, j, shift, size).sp - size - LevelOf(heads).words * size
      {
        MarkedGoesOn(heads, f, mark, j, shift, size);
        Moves(heads[n], LevelOf(heads[..n]).words, LevelOf(heads).words, size);
      }
    }
  }

  /** The head at which a pushed word is first lost. */
  lemma {:induction false} FirstLoss(heads: seq<Head>) returns (j: nat)
    requires LevelOf(heads) == Lost
    ensures j < |heads| && LevelOf(heads[..j]).Above? && Next(LevelOf(heads[..j]), heads[j]) == Lost
  {
    var n := |heads| - 1;
    if LevelOf(heads[..n]) == Lost {
      j := FirstLoss(heads[..n]);
      assert heads[..n][..j] == heads[..j];
    } else {
      j := n;
    }
  }

  // -- what each loss comes to --------------------------------------------------------------------------

  lemma LeftoversBreak(heads: seq<Head>, size: nat)
    requires size > 0 && LevelOf(heads).Above? && LevelOf(heads).words > 0
    ensures !AlwaysHolds(heads, size)
  {
    var i := LastPush(heads);
    var mark := Marked(heads[..i], i, 0, -1, 0, size).sp - size;
    MarksStandStill(heads[..i], i, 0, i, mark, -1, 0, size);
    if AlwaysHolds(heads, size) {
      MarkIsInPlace(heads, i, mark, -1, 0, size);
      Fewer(0, LevelOf(heads).words, size);
      assert false;
    }
  }

  /** The stack pointer is taken above the mark. */
  lemma MarkIsUncovered(heads: seq<Head>, i: nat, mark: int, level: nat, size: nat) returns (words: int)
    requires size > 0 && heads != [] && i < |heads| - 1 && !IsPush(heads[|heads| - 1])
    requires Next(Above(level), heads[|heads| - 1]) == Lost
    requires Marked(heads[..|heads| - 1], i, mark, |heads| - 1, (level + 1) * size, size).sp == mark - level * size
    ensures Gone(Marked(heads, i, mark, |heads| - 1, (level + 1) * size, size), mark, words, size)
  {
    var j, shift := |heads| - 1, (level + 1) * size;
    MarkedGoesOn(heads, i, mark, j, shift, size);
    Times(level, size);
    words := 1;
    if EffectOn(heads[j]).Shrinks? {
      words := EffectOn(heads[j]).words - level;
      Reach(EffectOn(heads[j]).words, level, size);
    }
    hide Marked;
  }

  /** The stack pointer is taken above the last pushed word, or elsewhere. */
  lemma UncoveredBreaks(heads: seq<Head>, j: nat, size: nat)
    requires size > 0 && j < |heads| && LevelOf(heads[..j]).Above? && Next(LevelOf(heads[..j]), heads[j]) == Lost && !IsPush(heads[j])
    ensures !AlwaysHolds(heads, size)
  {
    hide Marked, AlwaysHolds, Next, LevelOf, EffectOn;
    var front, level := heads[..j], LevelOf(heads[..j]).words;
    var i := LastPush(front);
    assert front[..i] == heads[..i] && heads[..j + 1][..i] == heads[..i] && heads[..j + 1][..j] == front;
    var shift := (level + 1) * size;
    var mark := Marked(heads[..i], i, 0, j, shift, size).sp - size;
    MarksStandStill(heads[..i], i, 0, i, mark, j, shift, size);
    assert Marked(front, i, mark, j, shift, size).sp == mark - level * size;
    var words := MarkIsUncovered(heads[..j + 1], i, mark, level, size);
    var now := GoneForGood(heads, j + 1, i, mark, words, j, shift, size);
    if AlwaysHolds(heads, size) {
      MarkIsInPlace(heads, i, mark, j, shift, size);
      Times(WordsAfter(heads, i), size);
      Reach(now, 0, size);
      assert false;
    }
  }

  /** A push on top of words that were not pushed. */
  lemma GapsBreak(heads: seq<Head>, j: nat, size: nat)
    requires size > 0 && j < |heads| && LevelOf(heads[..j]).Above? && LevelOf(heads[..j]).words > 0 && IsPush(heads[j])
    ensures !AlwaysHolds(heads, size)
  {
    hide Marked, AlwaysHolds, LevelOf, Gone;
    var front, level := heads[..j], LevelOf(heads[..j]).words;
    var i := LastPush(front);
    assert front[..i] == heads[..i];
    var first := Marked(heads[..i], i, 0, -1, 0, size).sp - size;
    var second := Marked(front, j, 0, -1, 0, size).sp - size;
    MarksStandStill(heads[..i], i, 0, i, first, -1, 0, size);
    MarksStandStill(heads[..i], j, 0, i, first, -1, 0, size);
    MarksStandStill(front, j, 0, j, second, -1, 0, size);
    MarksStandStill(heads, i, first, j, second, -1, 0, size);
    assert second == first - size - level * size;
    if AlwaysHolds(heads, size) {
      MarkIsInPlace(heads, i, first, -1, 0, size);
      MarkIsInPlace(heads, j, second, -1, 0, size);
      assert WordsAfter(front, i) == 0 && WordsAfter(heads, i) == WordsAfter(heads, j) + 1;
      Times(WordsAfter(heads, j), size);
      Fewer(0, level, size);
      assert false;
    }
  }

  /** The words the push scan promises are on the stack, whatever is pushed and whatever else
    is put there, exactly when the stretch is balanced. */
  lemma SlotsMatchExactlyWhenBalanced(heads: seq<Head>, size: nat)
    requires size > 0
    ensures AlwaysHolds(heads, size) <==> Balanced(heads)
  {
    hide Execute, PushedValues, Next, LevelOf;
    if Balanced(heads) {
      forall inputs: seq<Input>, s: Stack | |inputs| == |heads|
        ensures OnTop(Execute(heads, inputs, s, size), PushedValues(heads, Words(inputs)), size)
      {
        BalancedHolds(heads, inputs, s, size);
      }
    } else if LevelOf(heads).Above? {
      LeftoversBreak(heads, size);
    } else {
      var j := FirstLoss(heads);
      if IsPush(heads[j]) {
        PushesLoseOverWords(LevelOf(heads[..j]), heads[j]);
        GapsBreak(heads, j, size);
      } else {
        UncoveredBreaks(heads, j, size);
      }
    }
  }

  lemma PushesLoseOverWords(level: Level, h: Head)
    requires IsPush(h) && level.Above? && Next(level, h) == Lost
    ensures level.words > 0
  {}

  lemma BalancedHolds(heads: seq<Head>, inputs: seq<Input>, s: Stack, size: nat)
    requires size > 0 && Balanced(heads) && |inputs| == |heads|
    ensures OnTop(Execute(heads, inputs, s, size), PushedValues(heads, Words(inputs)), size)
  {
    var end, pushed := Execute(heads, inputs, s, size), PushedValues(heads, Words(inputs));
    hide Execute, PushedValues, LevelOf;
    WordsHold(heads, inputs, s, size);
    assert end.(sp := end.sp + 0 * size) == end;
  }

  /** So it is for what the scan passes over before a call. */
  lemma ScannedSlotsMatchExactly(port: IdaPort, callEa: int)
    requires port.pointerSize > 0
    ensures AlwaysHolds(Stretch(port, callEa), port.pointerSize) <==> Balanced(Stretch(port, callEa))
  {
    hide AlwaysHolds, Balanced, Stretch;
    SlotsMatchExactlyWhenBalanced(Stretch(port, callEa), port.pointerSize);
  }

  // -- instructions the scan passes over all the same ---------------------------------------------------

  /** Without operands, whatever it does to the stack, an instruction is taken to leave it
    alone. */
  lemma BareInstructionsAreTransparent(instr: Instruction, sp: Option<int>)
    requires instr.operands == [] && !instr.isControlTransfer
    ensures IsTransparent(instr, sp)
  {}

  /** And a `pop` of another register. */
  lemma PopsAreTransparent(instr: Instruction, sp: Option<int>, op: Operand)
    requires instr.mnem == "pop" && !instr.isControlTransfer && instr.operands == [op] && op.reg != sp
    ensures IsTransparent(instr, sp)
  {}

  function Bare(ea: int, mnem: string): Instruction { Instruction(ea, mnem, 1, [], [], [], false) }

  function PushOf(ea: int): Instruction {
    Instruction(ea, "push", 1, [Operand(REG, 0, Some(0), None, 0, 0, 0, 8, None)], [false], [true], false)
  }

  lemma LevelAfter(heads: seq<Head>, h: Head)
    ensures LevelOf(heads + [h]) == Next(LevelOf(heads), h)
  {
    assert (heads + [h])[..|heads|] == heads;
  }

  lemma PushThen(h: Head)
    ensures LevelOf([(0, PushOf(0))]) == Above(0) && LevelOf([(0, PushOf(0)), h]) == Next(Above(0), h)
  {
    var push: Head := (0, PushOf(0));
    hide Next, EffectOf;
    assert [] + [push] == [push] && [push] + [h] == [push, h] && LevelOf([]) == Unpushed;
    LevelAfter([], push);
    LevelAfter([push], h);
    assert Next(Unpushed, push) == Above(0) by { PushIsFirst(push); }
  }

  lemma PushIsFirst(h: Head)
    requires IsPush(h)
    ensures Next(Unpushed, h) == Above(0)
  {}

  /** `push rax`, `leave`: the scan passes over the `leave` and promises the word of the push,
    which is no longer there. */
  lemma LeaveIsPassedOver(sp: Option<int>, size: nat)
    requires size > 0
    ensures IsTransparent(Bare(1, "leave"), sp) && !AlwaysHolds([(0, PushOf(0)), (1, Bare(1, "leave"))], size)
  {
    var push, leave: Head := (0, PushOf(0)), (1, Bare(1, "leave"));
    PushThen(leave);
    assert Next(Above(0), leave) == Lost;
    hide LevelOf, AlwaysHolds, Next;
    SlotsMatchExactlyWhenBalanced([push, leave], size);
  }

  lemma FlagsTakeAWord()
    ensures Next(Above(0), (1, Bare(1, "pushfd"))) == Above(1) && Next(Above(1), (2, Bare(2, "popfd"))) == Above(0)
  {}

  /** `pushfd` after a push takes the place of its word, and `popfd` gives it back. */
  lemma FlagsMustBeGivenBack(size: nat)
    requires size > 0
    ensures var push, save, restore := (0, PushOf(0)), (1, Bare(1, "pushfd")), (2, Bare(2, "popfd"));
      !AlwaysHolds([push, save], size) && AlwaysHolds([push, save, restore], size)
  {
    hide LevelOf, AlwaysHolds, Next;
    var push, save, restore: Head := (0, PushOf(0)), (1, Bare(1, "pushfd")), (2, Bare(2, "popfd"));
    PushThen(save);
    FlagsTakeAWord();
    assert [push, save] + [restore] == [push, save, restore];
    LevelAfter([push, save], restore);
    SlotsMatchExactlyWhenBalanced([push, save], size);
    SlotsMatchExactlyWhenBalanced([push, save, restore], size);
  }
}
