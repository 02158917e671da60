/** `LocatorRegistry`: a dispatch table kept sorted by priority, stably. */
module Registry {
  import opened Values
  import opened InsnModel
  import opened Locators

  type Entry = (int, Locator)

  /** A stable sort, highest priority first, of a table that was sorted but for its last
    entry: the newcomer goes after its equals. */
  function Inserted(table: seq<Entry>, entry: Entry): (r: seq<Entry>)
    ensures forall e :: e in r <==> e in table || e == entry
  {
    if table == [] then [entry]
    else if table[0].0 >= entry.0 then
      assert forall e :: e in table <==> e == table[0] || e in table[1..];
      [table[0]] + Inserted(table[1..], entry)
    else [entry] + table
  }

  function Registered(entries: seq<Entry>): (r: seq<Entry>)
    ensures forall e :: e in r <==> e in entries
  {
    if entries == [] then []
    else
      assert forall e :: e in entries <==> e in entries[..|entries| - 1] || e == entries[|entries| - 1];
      Inserted(Registered(entries[..|entries| - 1]), entries[|entries| - 1])
  }

  function LocatorsOf(table: seq<Entry>): (r: seq<Locator>)
    ensures |r| == |table| && forall i :: 0 <= i < |r| ==> r[i] == table[i].1
  {
    seq(|table|, i requires 0 <= i < |table| => table[i].1)
  }

  ghost predicate Sorted(table: seq<Entry>) { forall i, j :: 0 <= i < j < |table| ==> table[i].0 >= table[j].0 }

  class LocatorRegistry {
    var table: seq<Entry>

    function Order(): seq<Locator>
      reads this
    {
      LocatorsOf(table)
    }

    constructor ()
      ensures table == []
    {
      table := [];
    }

    /** Appends and sorts: the new entry sinks past everything of lower priority. */
    method Register(locator: Locator, priority: int)
      requires Sorted(table)
      modifies this
      ensures table == Inserted(old(table), (priority, locator)) && Sorted(table)
    {
      var entry := (priority, locator);
      var i := 0;
      while i < |table| && table[i].0 >= priority
        invariant 0 <= i <= |table|
        invariant forall j :: 0 <= j < i ==> table[j].0 >= priority
      {
        i := i + 1;
      }
      InsertedInPlace(table, entry, i);
      InsertedIsSorted(table, entry);
      table := table[..i] + [entry] + table[i..];
    }

    method Match(instr: Instruction) returns (r: Option<Locator>)
      ensures r == Dispatch(Order(), instr)
    {
      var i := 0;
      while i < |table|
        invariant 0 <= i <= |table|
        invariant Dispatch(Order(), instr) == Dispatch(Order()[i..], instr)
      {
        if Matches(table[i].1, instr) {
          return Some(table[i].1);
        }
        i := i + 1;
      }
      r := None;
    }
  }

  lemma {:induction false} InsertedInPlace(table: seq<Entry>, entry: Entry, i: nat)
    requires i <= |table| && (forall j :: 0 <= j < i ==> table[j].0 >= entry.0)
    requires i < |table| ==> table[i].0 < entry.0
    ensures Inserted(table, entry) == table[..i] + [entry] + table[i..]
  {
    if i > 0 {
      InsertedInPlace(table[1..], entry, i - 1);
      assert table[1..][..i - 1] == table[1..i] && table[1..][i - 1..] == table[i..];
      assert table[..i] == [table[0]] + table[1..i];
    }
  }

  lemma {:induction false} InsertedIsSorted(table: seq<Entry>, entry: Entry)
    requires Sorted(table)
    ensures Sorted(Inserted(table, entry))
  {
    if table != [] && table[0].0 >= entry.0 {
      InsertedIsSorted(table[1..], entry);
      var rest := Inserted(table[1..], entry);
      forall e | e in rest ensures table[0].0 >= e.0 {
        assert e in table[1..] || e == entry;
      }
    }
  }

  lemma {:induction false} RegisteredIsSorted(entries: seq<Entry>)
    ensures Sorted(Registered(entries))
  {
    if entries != [] {
      RegisteredIsSorted(entries[..|entries| - 1]);
      InsertedIsSorted(Registered(entries[..|entries| - 1]), entries[|entries| - 1]);
    }
  }

  /** Entry `i` of a registration history takes precedence over entry `j`. */
  predicate Precedes(entries: seq<Entry>, i: nat, j: nat)
    requires i < |entries| && j < |entries|
  {
    entries[i].0 > entries[j].0 || (entries[i].0 == entries[j].0 && i <= j)
  }

  lemma DispatchTriesTheFirst(table: seq<Entry>, instr: Instruction)
    requires table != []
    ensures Dispatch(LocatorsOf(table), instr) ==
      if Matches(table[0].1, instr) then Some(table[0].1) else Dispatch(LocatorsOf(table[1..]), instr)
  {
    assert LocatorsOf(table)[1..] == LocatorsOf(table[1..]);
  }

  /** Inserting a newcomer changes the answer only if the newcomer matches and nothing
    of its priority or higher did. */
  lemma {:induction false} DispatchAfterInsertion(table: seq<Entry>, entry: Entry, instr: Instruction, winner: Entry)
    requires Sorted(table)
    requires winner in table && Matches(winner.1, instr) && Dispatch(LocatorsOf(table), instr) == Some(winner.1)
    requires forall e :: e in table && Matches(e.1, instr) ==> winner.0 >= e.0
    ensures Dispatch(LocatorsOf(Inserted(table, entry)), instr) ==
      Some(if Matches(entry.1, instr) && entry.0 > winner.0 then entry.1 else winner.1)
  {
    hide Matches, Dispatch, LocatorsOf;
    var after, rest := Inserted(table, entry), table[1..];
    DispatchTriesTheFirst(table, instr);
    DispatchTriesTheFirst(after, instr);
    if table[0].0 < entry.0 {
      assert after[1..] == table;
    } else if Matches(table[0].1, instr) {
      assert table[0] in table;
    } else {
      assert after[1..] == Inserted(rest, entry);
      assert winner in rest;
      DispatchAfterInsertion(rest, entry, instr, winner);
    }
  }

  lemma {:induction false} DispatchFindsNothing(table: seq<Entry>, entry: Entry, instr: Instruction)
    requires Dispatch(LocatorsOf(table), instr) == None
    ensures Dispatch(LocatorsOf(Inserted(table, entry)), instr) == if Matches(entry.1, instr) then Some(entry.1) else None
  {
    hide Matches, LocatorsOf;
    var after := Inserted(table, entry);
    DispatchTriesTheFirst(after, instr);
    if table != [] {
      DispatchTriesTheFirst(table, instr);
      if table[0].0 >= entry.0 {
        assert after[1..] == Inserted(table[1..], entry);
        DispatchFindsNothing(table[1..], entry, instr);
      } else {
        assert after[1..] == table;
      }
    }
  }

  /** Entry `winner` matches, and no matching entry has a higher priority, or the same
    priority and an earlier registration; -1 when no entry matches. */
  ghost predicate Wins(entries: seq<Entry>, instr: Instruction, winner: int) {
    if winner == -1 then forall e :: e in entries ==> !Matches(e.1, instr)
    else
      && 0 <= winner < |entries| && Matches(entries[winner].1, instr)
      && forall i :: 0 <= i < |entries| && Matches(entries[i].1, instr) ==> Precedes(entries, winner, i)
  }

  /** After any registrations, dispatch answers the matching entry of highest priority,
    the earliest registered among equals; and nothing only if nothing matches. */
  lemma {:induction false} HighestPriorityWins(entries: seq<Entry>, instr: Instruction) returns (winner: int)
    ensures Wins(entries, instr, winner)
    ensures Dispatch(LocatorsOf(Registered(entries)), instr) == if winner == -1 then None else Some(entries[winner].1)
  {
    hide Matches, Inserted, Dispatch;
    if entries == [] { return -1; }
    var front, last := entries[..|entries| - 1], entries[|entries| - 1];
    winner := HighestPriorityWins(front, instr);
    RegisteredIsSorted(front);
    assert entries == front + [last];
    if winner == -1 {
      DispatchFindsNothing(Registered(front), last, instr);
      if Matches(last.1, instr) { winner := |front|; }
    } else {
      DispatchAfterInsertion(Registered(front), last, instr, front[winner]);
      if Matches(last.1, instr) && last.0 > front[winner].0 { winner := |front|; }
    }
  }

  /** No two of the built-in locators match the same instruction: they differ in the
    mnemonic, or in the kinds of their operands. */
  lemma BuiltinsAreDisjoint(a: Locator, b: Locator, instr: Instruction)
    requires Matches(a, instr) && Matches(b, instr)
    ensures a == b
  {
    MnemonicsDiffer(instr.mnem);
  }

  lemma MnemonicsDiffer(m: string)
    ensures StartsWith(m, "call") ==> |m| >= 4 && m[0] == 'c' && m[1] == 'a'
    ensures StartsWith(m, "cmov") ==> |m| >= 4 && m[0] == 'c' && m[1] == 'm'
  {
    assert StartsWith(m, "call") ==> m[0] == m[..4][0] && m[1] == m[..4][1];
    assert StartsWith(m, "cmov") ==> m[0] == m[..4][0] && m[1] == m[..4][1];
  }

  lemma {:induction false} DispatchFindsTheMatch(locators: seq<Locator>, l: Locator, instr: Instruction)
    requires l in locators && Matches(l, instr)
    ensures Dispatch(locators, instr) == Some(l)
  {
    if Matches(locators[0], instr) { BuiltinsAreDisjoint(locators[0], l, instr); }
    else { DispatchFindsTheMatch(locators[1..], l, instr); }
  }

  /** So two lists of the same locators dispatch alike, whatever their order. */
  lemma OrderDoesNotMatter(xs: seq<Locator>, ys: seq<Locator>, instr: Instruction)
    requires forall l :: l in xs <==> l in ys
    ensures Dispatch(xs, instr) == Dispatch(ys, instr)
  {
    if Dispatch(xs, instr).Some? { DispatchFindsTheMatch(ys, Dispatch(xs, instr).value, instr); }
  }

  lemma {:induction false} RegisteredLocators(entries: seq<Entry>, l: Locator)
    ensures l in LocatorsOf(Registered(entries)) <==> l in LocatorsOf(entries)
  {
    hide Registered;
    if i :| 0 <= i < |entries| && LocatorsOf(entries)[i] == l {
      assert entries[i] in Registered(entries);
      var j :| 0 <= j < |Registered(entries)| && Registered(entries)[j] == entries[i];
      assert LocatorsOf(Registered(entries))[j] == l;
    }
    if j :| 0 <= j < |Registered(entries)| && LocatorsOf(Registered(entries))[j] == l {
      assert Registered(entries)[j] in entries;
      var i :| 0 <= i < |entries| && entries[i] == Registered(entries)[j];
      assert LocatorsOf(entries)[i] == l;
    }
  }

  /** Registering the built-in locators in another order, or with other priorities, gives
    a registry that dispatches every instruction alike. */
  lemma RegistrationOrderDoesNotMatter(xs: seq<Entry>, ys: seq<Entry>, instr: Instruction)
    requires forall l :: l in LocatorsOf(xs) <==> l in LocatorsOf(ys)
    ensures Dispatch(LocatorsOf(Registered(xs)), instr) == Dispatch(LocatorsOf(Registered(ys)), instr)
  {
    hide Matches, Dispatch, Registered;
    forall l ensures l in LocatorsOf(Registered(xs)) <==> l in LocatorsOf(Registered(ys)) {
      RegisteredLocators(xs, l);
      RegisteredLocators(ys, l);
    }
    OrderDoesNotMatter(LocatorsOf(Registered(xs)), LocatorsOf(Registered(ys)), instr);
  }
}
