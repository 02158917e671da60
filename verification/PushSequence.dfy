/** Arguments passed by `push`: the scan that collects the pushes before a call, the
  slots of a push convention, and where the pushed words are on the stack. */
module PushSequence {
  import opened Values
  import opened InsnModel
  import opened Port
  import opened Conventions

  const MAX_PUSH_SEQUENCE: nat := 64
  const MAX_TRANSPARENT_SKIP: nat := 16

  /** The instruction may stand between two pushes of one call. */
  predicate IsTransparent(instr: Instruction, sp: Option<int>) {
    !instr.isControlTransfer &&
    (sp.None? ||
     forall op :: op in instr.operands && instr.IsWritten(op.number) ==>
       !((op.kind == REG || op.IsMemory()) && op.reg == sp))
  }

  type Head = (int, Instruction)

  predicate IsPush(h: Head) { h.1.mnem == "push" }

  /** What the scan passes over from `ea` downward, nearest to the call first. */
  function Scanned(port: IdaPort, ea: Option<int>, minEa: int, pushes: nat, skipped: nat): seq<Head>
    requires ea.Some? ==> minEa <= ea.value
    decreases if ea.Some? then ea.value - minEa + 1 else 0
  {
    if ea.None? || pushes >= MAX_PUSH_SEQUENCE || skipped >= MAX_TRANSPARENT_SKIP then []
    else
      var next := port.PrevHead(ea.value, minEa);
      match port.decodeAt(ea.value)
      case None => []
      case Some(instr) =>
        if instr.mnem == "push" then [(ea.value, instr)] + Scanned(port, next, minEa, pushes + 1, skipped)
        else if IsTransparent(instr, port.stackPointerReg) then [(ea.value, instr)] + Scanned(port, next, minEa, pushes, skipped + 1)
        else []
  }

  /** The addresses of the pushes among the heads, in the order of the heads. */
  function PushesOf(heads: seq<Head>): seq<int> {
    if heads == [] then []
    else
      var front := PushesOf(heads[..|heads| - 1]);
      if IsPush(heads[|heads| - 1]) then front + [heads[|heads| - 1].0] else front
  }

  function Reversed<T>(s: seq<T>): seq<T> {
    if s == [] then [] else [s[|s| - 1]] + Reversed(s[..|s| - 1])
  }

  lemma ReversedAppend<T>(s: seq<T>, x: T)
    ensures Reversed(s + [x]) == [x] + Reversed(s)
  {
    assert (s + [x])[..|s|] == s;
  }

  /** The scanned stretch in the order it is executed. */
  function Stretch(port: IdaPort, callEa: int): seq<Head> {
    match port.funcStart(callEa)
    case None => []
    case Some(func) => Reversed(Scanned(port, port.PrevHead(callEa, func), func, 0, 0))
  }

  function CollectPushes(port: IdaPort, callEa: int): seq<int> { PushesOf(Stretch(port, callEa)) }

  lemma {:induction false} PushesOfAppend(a: seq<Head>, b: seq<Head>)
    ensures PushesOf(a + b) == PushesOf(a) + PushesOf(b)
  {
    if b == [] {
      assert a + b == a;
    } else {
      assert (a + b)[..|a + b| - 1] == a + b[..|b| - 1];
      PushesOfAppend(a, b[..|b| - 1]);
    }
  }

  lemma EmptyHasNoPushes()
    ensures PushesOf([]) == []
  {}

  lemma PassesHead(passed: seq<Head>, head: Head)
    ensures PushesOf(passed + [head]) == if IsPush(head) then PushesOf(passed) + [head.0] else PushesOf(passed)
    ensures forall rest: seq<Head> :: passed + ([head] + rest) == (passed + [head]) + rest
  {
    assert (passed + [head])[..|passed|] == passed;
  }

  lemma {:induction false} PushesOfReversed(heads: seq<Head>)
    ensures PushesOf(Reversed(heads)) == Reversed(PushesOf(heads))
  {
    if heads != [] {
      var front, last := heads[..|heads| - 1], heads[|heads| - 1];
      PushesOfReversed(front);
      PushesOfAppend([last], Reversed(front));
      PassesHead([], last);
      assert [] + [last] == [last];
      if IsPush(last) {
        ReversedAppend(PushesOf(front), last.0);
      } else {
        assert PushesOf(heads) == PushesOf(front);
        assert [] + PushesOf(Reversed(front)) == PushesOf(Reversed(front));
      }
    }
  }

  lemma CollectedInReverse(port: IdaPort, callEa: int, func: int)
    requires port.funcStart(callEa) == Some(func)
    ensures CollectPushes(port, callEa) == Reversed(PushesOf(Scanned(port, port.PrevHead(callEa, func), func, 0, 0)))
  {
    PushesOfReversed(Scanned(port, port.PrevHead(callEa, func), func, 0, 0));
  }

  // -- how far the scan goes ------------------------------------------------------------------

  predicate Passable(port: IdaPort, h: Head) { IsPush(h) || IsTransparent(h.1, port.stackPointerReg) }

  /** Heads that follow one another downward from `ea`, all of which may be passed. */
  predicate Runs(port: IdaPort, ea: Option<int>, minEa: int, heads: seq<Head>)
    decreases |heads|
  {
    heads == [] ||
    (ea.Some? && heads[0].0 == ea.value && port.decodeAt(ea.value) == Some(heads[0].1) && Passable(port, heads[0])
     && Runs(port, port.PrevHead(ea.value, minEa), minEa, heads[1..]))
  }

  function CountPushes(heads: seq<Head>): (n: nat)
    ensures n <= |heads|
  {
    if heads == [] then 0 else CountPushes(heads[1..]) + if IsPush(heads[0]) then 1 else 0
  }

  /** Fewer than 64 pushes and fewer than 16 other heads, beyond those already met. */
  predicate UnderTheCaps(heads: seq<Head>, pushes: nat, skipped: nat) {
    pushes + CountPushes(heads) < 64 && skipped + (|heads| - CountPushes(heads)) < 16
  }

  /** The scan passes exactly the heads that run down from the call without one that may not be
    passed, up to the first at which 64 pushes or 16 other instructions are reached. */
  lemma {:induction false} ScanIsLongest(port: IdaPort, ea: Option<int>, minEa: int, pushes: nat, skipped: nat, heads: seq<Head>)
    requires ea.Some? ==> minEa <= ea.value
    ensures heads <= Scanned(port, ea, minEa, pushes, skipped) <==>
      Runs(port, ea, minEa, heads) && (heads != [] ==> UnderTheCaps(heads[..|heads| - 1], pushes, skipped))
    decreases |heads|
  {
    hide IsTransparent;
    if heads != [] && ea.Some? && pushes < MAX_PUSH_SEQUENCE && skipped < MAX_TRANSPARENT_SKIP {
      var head, rest := heads[0], heads[1..];
      if head.0 == ea.value && port.decodeAt(ea.value) == Some(head.1) && Passable(port, head) {
        var next := port.PrevHead(ea.value, minEa);
        var p, k := if IsPush(head) then pushes + 1 else pushes, if IsPush(head) then skipped else skipped + 1;
        ScanIsLongest(port, next, minEa, p, k, rest);
        PrefixesAgree(head, rest, Scanned(port, next, minEa, p, k));
        if rest != [] { CapsMoveOn(heads, pushes, skipped); }
      }
    }
  }

  lemma PrefixesAgree(head: Head, rest: seq<Head>, scanned: seq<Head>)
    ensures [head] + rest <= [head] + scanned <==> rest <= scanned
  {
    assert ([head] + rest)[1..] == rest && ([head] + scanned)[1..] == scanned;
    if rest <= scanned { assert ([head] + scanned)[..|rest| + 1] == [head] + rest; }
    if [head] + rest <= [head] + scanned { assert scanned[..|rest|] == ([head] + scanned)[1..][..|rest|] == rest; }
  }

  lemma CapsMoveOn(heads: seq<Head>, pushes: nat, skipped: nat)
    requires |heads| > 1
    ensures var rest := heads[1..];
      UnderTheCaps(heads[..|heads| - 1], pushes, skipped) <==>
      if IsPush(heads[0]) then UnderTheCaps(rest[..|rest| - 1], pushes + 1, skipped)
      else UnderTheCaps(rest[..|rest| - 1], pushes, skipped + 1)
  {
    assert heads[..|heads| - 1][1..] == heads[1..][..|heads| - 2];
  }

  // -- the words on the stack ---------------------------------------------------------------

  datatype Stack = Stack(sp: int, words: map<int, int>)
  {
    function Load(address: int): int { if address in words then words[address] else 0 }
  }

  ghost predicate Pushes(s: Stack, value: int, s': Stack, pointerSize: nat) {
    && s'.sp == s.sp - pointerSize && s'.Load(s'.sp) == value
    && forall a :: a != s'.sp ==> s'.Load(a) == s.Load(a)
  }

  /** Neither the stack pointer nor a word pushed since `top` changes. */
  ghost predicate KeepsPushedWords(s: Stack, s': Stack, top: int) {
    s'.sp == s.sp && forall a :: s.sp <= a < top ==> s'.Load(a) == s.Load(a)
  }

  /** Executing the stretch: each push stores its word, the rest keep what was pushed. */
  ghost predicate Performs(heads: seq<Head>, values: seq<int>, trace: seq<Stack>, pointerSize: nat) {
    && |trace| == |heads| + 1 && |values| == |heads|
    && forall i :: 0 <= i < |heads| ==>
         if IsPush(heads[i]) then Pushes(trace[i], values[i], trace[i + 1], pointerSize)
         else KeepsPushedWords(trace[i], trace[i + 1], trace[0].sp)
  }

  function PushedValues(heads: seq<Head>, values: seq<int>): (r: seq<int>)
    requires |values| == |heads|
    ensures |r| == |PushesOf(heads)|
  {
    if heads == [] then []
    else
      var n := |heads| - 1;
      var front := PushedValues(heads[..n], values[..n]);
      if IsPush(heads[n]) then front + [values[n]] else front
  }

  /** Word k above the stack pointer is the k-th pushed from the end. */
  ghost predicate Holds(s: Stack, top: int, pushed: seq<int>, pointerSize: nat) {
    && s.sp == top - |pushed| * pointerSize
    && forall k :: 0 <= k < |pushed| ==> s.Load(s.sp + k * pointerSize) == pushed[|pushed| - 1 - k]
  }

  lemma PushHolds(s: Stack, value: int, s': Stack, top: int, pushed: seq<int>, pointerSize: nat)
    requires Holds(s, top, pushed, pointerSize) && Pushes(s, value, s', pointerSize) && pointerSize > 0
    ensures Holds(s', top, pushed + [value], pointerSize)
  {
    var next := pushed + [value];
    Times(|pushed|, pointerSize);
    forall k | 0 <= k < |next| ensures s'.Load(s'.sp + k * pointerSize) == next[|next| - 1 - k] {
      if k > 0 {
        Times(k - 1, pointerSize);
        assert s'.sp + k * pointerSize == s.sp + (k - 1) * pointerSize;
        assert s.Load(s.sp + (k - 1) * pointerSize) == pushed[|pushed| - 1 - (k - 1)];
      }
    }
  }

  lemma OtherHolds(s: Stack, s': Stack, top: int, pushed: seq<int>, pointerSize: nat)
    requires Holds(s, top, pushed, pointerSize) && KeepsPushedWords(s, s', top) && pointerSize > 0
    ensures Holds(s', top, pushed, pointerSize)
  {
    forall k | 0 <= k < |pushed| ensures s'.Load(s'.sp + k * pointerSize) == pushed[|pushed| - 1 - k] {
      Fewer(k, |pushed|, pointerSize);
      assert s.sp <= s.sp + k * pointerSize < top;
    }
  }

  lemma Times(n: nat, size: nat)
    ensures (n + 1) * size == n * size + size && n * size >= 0
  {}

  lemma {:induction false} Fewer(k: nat, m: nat, size: nat)
    requires size > 0 && k < m
    ensures 0 <= k * size < m * size
  {
    Times(m - 1, size);
    if k < m - 1 { Fewer(k, m - 1, size); }
  }

  /** Slot k above the stack pointer holds what the k-th push from the end pushed. */
  lemma {:induction false} PushedWordsAreOnTheStack(heads: seq<Head>, values: seq<int>, trace: seq<Stack>, pointerSize: nat)
    requires Performs(heads, values, trace, pointerSize) && pointerSize > 0
    ensures Holds(trace[|heads|], trace[0].sp, PushedValues(heads, values), pointerSize)
  {
    if heads != [] {
      var n := |heads| - 1;
      PushedWordsAreOnTheStack(heads[..n], values[..n], trace[..n + 1], pointerSize);
      var earlier := PushedValues(heads[..n], values[..n]);
      if IsPush(heads[n]) {
        PushHolds(trace[n], values[n], trace[n + 1], trace[0].sp, earlier, pointerSize);
      } else {
        OtherHolds(trace[n], trace[n + 1], trace[0].sp, earlier, pointerSize);
        assert PushedValues(heads, values) == earlier;
      }
    }
  }

  // -- the pushes of a call ----------------------------------------------------------------------

  /** The push that a slot is resolved at, as `_resolve_slot` picks it. */
  function PushForPosition(pushes: seq<int>, position: nat): Option<int> {
    var index := |pushes| - 1 - position;
    if index < 0 || index >= |pushes| then None else Some(pushes[index])
  }

  lemma {:induction false} ReversedAt<T>(s: seq<T>, k: nat)
    requires k < |s|
    ensures |Reversed(s)| == |s| && Reversed(s)[|s| - 1 - k] == s[k]
  {
    if |s| > 1 { ReversedAt(s[..|s| - 1], if k < |s| - 1 then k else 0); }
  }

  /** Pushes that run up to the call under the caps are all found, each at its position. */
  lemma PushesUnderTheCapsAreFound(port: IdaPort, callEa: int, func: int, heads: seq<Head>, k: nat)
    requires port.funcStart(callEa) == Some(func) && Runs(port, port.PrevHead(callEa, func), func, heads)
    requires heads != [] ==> UnderTheCaps(heads[..|heads| - 1], 0, 0)
    requires k < |PushesOf(heads)|
    ensures PushForPosition(CollectPushes(port, callEa), k) == Some(PushesOf(heads)[k])
  {
    hide Scanned, Runs, UnderTheCaps, Stretch, CollectPushes, PushesOf;
    var ea := port.PrevHead(callEa, func);
    var scanned := Scanned(port, ea, func, 0, 0);
    ScanIsLongest(port, ea, func, 0, 0, heads);
    CollectedInReverse(port, callEa, func);
    assert scanned == heads + scanned[|heads|..];
    PushesOfAppend(heads, scanned[|heads|..]);
    ReversedAt(PushesOf(scanned), k);
  }

  /** The argument the convention takes from push position k is the word k places above
    the stack pointer at the call, and the push it is resolved at is the one that put
    that word there; the convention finds no push only if fewer were made. */
  lemma PushArgumentsMatchTheStack(port: IdaPort, callEa: int, c: Convention, register: string -> Option<int>, index: nat,
                                   values: seq<int>, trace: seq<Stack>)
    requires c.pushes && index >= |c.registerNames| && port.pointerSize > 0
    requires Performs(Stretch(port, callEa), values, trace, port.pointerSize)
    ensures var heads := Stretch(port, callEa);
      var k, pushes, atCall := SlotFor(c, register, index).position, CollectPushes(port, callEa), trace[|heads|];
      if k >= |pushes| then PushForPosition(pushes, k) == None
      else exists i :: 0 <= i < |heads| && IsPush(heads[i])
             && PushForPosition(pushes, k) == Some(heads[i].0)
             && atCall.Load(atCall.sp + k * port.pointerSize) == values[i]
  {
    var heads, k := Stretch(port, callEa), index - |c.registerNames|;
    PushedWordsAreOnTheStack(heads, values, trace, port.pointerSize);
    if k < |PushesOf(heads)| {
      var i := PushIsAHead(heads, values, |PushesOf(heads)| - 1 - k);
    }
  }

  lemma {:induction false} PushIsAHead(heads: seq<Head>, values: seq<int>, n: nat) returns (i: nat)
    requires |values| == |heads| && n < |PushesOf(heads)|
    ensures i < |heads| && IsPush(heads[i]) && PushesOf(heads)[n] == heads[i].0 && PushedValues(heads, values)[n] == values[i]
  {
    var last := |heads| - 1;
    if n < |PushesOf(heads[..last])| {
      i := PushIsAHead(heads[..last], values[..last], n);
    } else {
      i := last;
    }
  }
}
