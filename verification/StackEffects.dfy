/** What instructions do to the stack pointer without naming it, by mnemonic. */
module StackEffects {

  /** Pushing or popping whole words, or setting the stack pointer from elsewhere. */
  datatype Effect = Still | Grows(words: nat) | Shrinks(words: nat) | Elsewhere

  function EffectOf(mnem: string): Effect {
    if mnem == "push" || mnem == "pushf" || mnem == "pushfd" || mnem == "pushfq" then Grows(1)
    else if mnem == "pusha" || mnem == "pushad" then Grows(8)
    else if mnem == "pop" || mnem == "popf" || mnem == "popfd" || mnem == "popfq" then Shrinks(1)
    else if mnem == "popa" || mnem == "popad" then Shrinks(8)
    else if mnem == "enter" || mnem == "leave" || mnem == "ret" || mnem == "retn" || mnem == "retf" then Elsewhere
    else Still
  }
}
