/**
 * The interactive loop of the terminal menu: moving the selection over the items,
 * changing the value of a list or scroll item, and what Enter and Esc do to the
 * menu's flags. The terminal is not part of the model: what the user does is a
 * sequence of inputs, key presses and the lines typed when an item reads a line.
 */
module FancyMenu {
  import opened Wrappers
  import opened Text
  import opened Menu

  datatype KeyCode = Up | Down | Left | Right | Enter | Esc | Char(c: char) | OtherKey

  /**
   * One event the menu reads: a key press, a line typed at a prompt, a resize, or
   * `Idle`, a poll that waits one interval and finds no event pending.
   */
  datatype Input = Press(code: KeyCode) | Typed(line: string) | Resize | Idle

  /** What a key does in `handle_input`. */
  datatype Action = MoveUp | MoveDown | LowerValue | RaiseValue | Confirm | Cancel | Ignore

  /** The key match of `handle_input`: the arrows, their letter aliases, Enter or space, Esc or `q`. */
  function ActionOf(code: KeyCode): (a: Action)
    ensures a == MoveUp <==> code in {Up, Char('w'), Char('k')}
    ensures a == MoveDown <==> code in {Down, Char('s'), Char('j')}
    ensures a == LowerValue <==> code in {Left, Char('a'), Char('h')}
    ensures a == RaiseValue <==> code in {Right, Char('d'), Char('l')}
    ensures a == Confirm <==> code in {Enter, Char(' ')}
    ensures a == Cancel <==> code in {Esc, Char('q')}
  {
    match code
    case Up => MoveUp
    case Down => MoveDown
    case Left => LowerValue
    case Right => RaiseValue
    case Enter => Confirm
    case Esc => Cancel
    case OtherKey => Ignore
    case Char(c) =>
      if c == 'w' || c == 'k' then MoveUp
      else if c == 's' || c == 'j' then MoveDown
      else if c == 'a' || c == 'h' then LowerValue
      else if c == 'd' || c == 'l' then RaiseValue
      else if c == ' ' then Confirm
      else if c == 'q' then Cancel
      else Ignore
  }

  // ---------------------------------------------------------------------------
  // Moving the selection
  // ---------------------------------------------------------------------------

  function Next(n: nat, i: nat): nat
    requires i < n
  {
    if i + 1 == n then 0 else i + 1
  }

  function Prev(n: nat, i: nat): nat
    requires i < n
  {
    if i == 0 then n - 1 else i - 1
  }

  /** How many steps forward, wrapping at `n`, lead from `j` to `t`. */
  function Gap(n: nat, j: nat, t: nat): nat
    requires j < n && t < n
  {
    if j <= t then t - j else n + t - j
  }

  /**
   * `inc`: the next item after `index` that is not a label, wrapping from the last
   * item to the first. The recursion ends because some item can be selected.
   */
  function Inc(items: seq<Item>, index: nat): (r: nat)
    requires index < |items| && FirstSelectable(items).Some?
    ensures r < |items| && Selectable(items[r])
    ensures index < r ==> forall j :: index < j < r ==> !Selectable(items[j])
    ensures r <= index ==> forall j :: index < j < |items| ==> !Selectable(items[j])
    ensures r <= index ==> forall j :: 0 <= j < r ==> !Selectable(items[j])
    decreases Gap(|items|, Next(|items|, index), FirstSelectable(items).value)
  {
    var next := Next(|items|, index);
    if items[next].kind.Label? then Inc(items, next) else next
  }

  /**
   * `dec`: the previous item before `index` that is not a label, wrapping from the
   * first item to the last.
   */
  function Dec(items: seq<Item>, index: nat): (r: nat)
    requires index < |items| && FirstSelectable(items).Some?
    ensures r < |items| && Selectable(items[r])
    ensures r < index ==> forall j :: r < j < index ==> !Selectable(items[j])
    ensures index <= r ==> forall j :: 0 <= j < index ==> !Selectable(items[j])
    ensures index <= r ==> forall j :: r < j < |items| ==> !Selectable(items[j])
    decreases Gap(|items|, FirstSelectable(items).value, Prev(|items|, index))
  {
    var prev := Prev(|items|, index);
    if items[prev].kind.Label? then Dec(items, prev) else prev
  }

  /** From a selectable item, moving down and then up, or up and then down, comes back to it. */
  lemma IncDecInverse(items: seq<Item>, index: nat)
    requires index < |items| && Selectable(items[index])
    ensures FirstSelectable(items).Some?
    ensures Dec(items, Inc(items, index)) == index
    ensures Inc(items, Dec(items, index)) == index
  {
    assert FirstSelectable(items).Some?;
  }

  // ---------------------------------------------------------------------------
  // Changing the value of a list or scroll item
  // ---------------------------------------------------------------------------

  /** The `selected += 1` arm of `inc_value`: one further, wrapping past the last value. */
  function NextChoice(selected: nat, count: nat): (r: nat)
    ensures selected < count ==> r == (selected + 1) % count
    ensures selected >= count ==> r == selected + 1
  {
    if selected + 1 == count then 0 else selected + 1
  }

  /** The arm of `dec_value`: one back, wrapping before the first value to the last. */
  function PrevChoice(selected: nat, count: nat): (r: nat)
    requires count > 0
    ensures selected < count ==> r == (selected + count - 1) % count
    ensures 0 < selected ==> r == selected - 1
  {
    if selected == 0 then count - 1 else selected - 1
  }

  /** Within range, each of the two moves undoes the other. */
  lemma {:induction false} ChoiceRoundTrip(selected: nat, count: nat)
    requires selected < count
    ensures NextChoice(selected, count) < count && PrevChoice(selected, count) < count
    ensures PrevChoice(NextChoice(selected, count), count) == selected
    ensures NextChoice(PrevChoice(selected, count), count) == selected
  {
  }

  /** The kind after `inc_value`: list and scroll items move on, others are untouched. */
  function IncValueOf(k: Kind): (r: Kind)
    ensures !IsChoice(k) ==> r == k
    ensures IsChoice(k) ==> SameKind(k, r) && r.selected == NextChoice(k.selected, |k.values|)
    ensures ChoiceInRange(k) ==> ChoiceInRange(r)
  {
    if IsChoice(k) then k.(selected := NextChoice(k.selected, |k.values|)) else k
  }

  /** The kind after `dec_value`. */
  function DecValueOf(k: Kind): (r: Kind)
    requires IsChoice(k) ==> |k.values| > 0
    ensures !IsChoice(k) ==> r == k
    ensures IsChoice(k) ==> SameKind(k, r) && r.selected == PrevChoice(k.selected, |k.values|)
    ensures ChoiceInRange(k) ==> ChoiceInRange(r)
  {
    if IsChoice(k) then k.(selected := PrevChoice(k.selected, |k.values|)) else k
  }

  /** `inc_value` and `dec_value` undo each other on every item whose selection is in range. */
  lemma ValueRoundTrip(k: Kind)
    requires ChoiceInRange(k) && (IsChoice(k) ==> |k.values| > 0)
    ensures DecValueOf(IncValueOf(k)) == k
    ensures IncValueOf(DecValueOf(k)) == k
  {
    if IsChoice(k) {
      ChoiceRoundTrip(k.selected, |k.values|);
    }
  }

  /** The item at the selection with its kind replaced. */
  function WithSelectedKind(items: seq<Item>, selected: nat, k: Kind): (r: seq<Item>)
    requires selected < |items|
    ensures |r| == |items| && r[selected].kind == k && r[selected].name == items[selected].name
    ensures forall j :: 0 <= j < |items| && j != selected ==> r[j] == items[j]
  {
    items[selected := items[selected].(kind := k)]
  }

  /** Replacing the selected item's kind by one of the same shape keeps what a sound menu needs of its items. */
  lemma KindChangeKeepsItems(items: seq<Item>, selected: nat, k: Kind)
    requires selected < |items| && SameKind(items[selected].kind, k) && ChoiceInRange(k)
    requires FirstSelectable(items).Some? && ChoicesInRange(items)
    ensures var after := WithSelectedKind(items, selected, k);
            SameShape(items, after) && FirstSelectable(after).Some? && ChoicesInRange(after)
  {
    var after := WithSelectedKind(items, selected, k);
    assert Selectable(after[FirstSelectable(items).value]);
  }

  /** `inc_value` on the selected item. */
  method IncValue(menu: TerminalMenuStruct)
    requires menu.Valid()
    modifies menu`items
    ensures menu.Valid()
    ensures menu.items == WithSelectedKind(old(menu.items), menu.selected, IncValueOf(old(menu.items[menu.selected].kind)))
    ensures SameShape(old(menu.items), menu.items)
  {
    var k := IncValueOf(menu.items[menu.selected].kind);
    KindChangeKeepsItems(menu.items, menu.selected, k);
    menu.items := WithSelectedKind(menu.items, menu.selected, k);
  }

  /** `dec_value` on the selected item. */
  method DecValue(menu: TerminalMenuStruct)
    requires menu.Valid()
    modifies menu`items
    ensures menu.Valid()
    ensures menu.items == WithSelectedKind(old(menu.items), menu.selected, DecValueOf(old(menu.items[menu.selected].kind)))
    ensures SameShape(old(menu.items), menu.items)
  {
    var k := DecValueOf(menu.items[menu.selected].kind);
    KindChangeKeepsItems(menu.items, menu.selected, k);
    menu.items := WithSelectedKind(menu.items, menu.selected, k);
  }

  // ---------------------------------------------------------------------------
  // Enter, Esc and the running loop
  // ---------------------------------------------------------------------------

  /** What `read_line` gives: the next typed line, or nothing when the next input is not a line. */
  function ReadLine(inputs: seq<Input>): (r: (string, seq<Input>))
    ensures r.1 == inputs || (inputs != [] && r.1 == inputs[1..])
  {
    if inputs != [] && inputs[0].Typed? then (inputs[0].line, inputs[1..]) else ([], inputs)
  }

  predicate Suffix(rest: seq<Input>, inputs: seq<Input>)
  {
    |rest| <= |inputs| && rest == inputs[|inputs| - |rest|..]
  }

  lemma SuffixTransitive(a: seq<Input>, b: seq<Input>, c: seq<Input>)
    requires Suffix(a, b) && Suffix(b, c)
    ensures Suffix(a, c)
  {
    assert c[|c| - |b|..][|b| - |a|..] == c[|c| - |a|..];
  }

  /**
   * Enter on a string item: the trimmed line replaces the value when empty values are
   * allowed or the line is not empty.
   */
  method EnterString(menu: TerminalMenuStruct, after: seq<Input>) returns (rest: seq<Input>)
    requires menu.Valid() && menu.items[menu.selected].kind.StringInput?
    modifies menu`items
    ensures menu.Valid() && rest == ReadLine(after).1 && SameShape(old(menu.items), menu.items)
    ensures var k := old(menu.items[menu.selected].kind);
            var line := Trim(ReadLine(after).0);
            menu.items == WithSelectedKind(old(menu.items), menu.selected,
                                           if k.allowEmpty || line != [] then k.(value := line) else k)
    ensures var k := old(menu.items[menu.selected].kind);
            !k.allowEmpty && k.value != [] ==> menu.items[menu.selected].kind.value != []
  {
    var (line, remaining) := ReadLine(after);
    rest := remaining;
    var k := menu.items[menu.selected].kind;
    var input := Trim(line);
    if k.allowEmpty || input != [] {
      k := k.(value := input);
    }
    KindChangeKeepsItems(menu.items, menu.selected, k);
    menu.items := WithSelectedKind(menu.items, menu.selected, k);
  }

  /** Every value as a back button, the items of the menu a list or scroll item opens. */
  function BackButtons(values: seq<string>): (r: seq<Item>)
    ensures |r| == |values|
    ensures forall i :: 0 <= i < |r| ==> r[i] == BackButtonItem(values[i])
  {
    seq(|values|, i requires 0 <= i < |values| => BackButtonItem(values[i]))
  }

  /**
   * The menu a list or scroll item opens: its values as back buttons, starting on the
   * current value; the value it ends on.
   */
  method ChooseValue(values: seq<string>, current: nat, after: seq<Input>) returns (rest: seq<Input>, chosen: nat)
    requires current < |values|
    decreases |after|, 4
    ensures chosen < |values| && Suffix(rest, after)
  {
    var backs := BackButtons(values);
    assert Selectable(backs[0]);
    var made := NewMenu(backs, {});
    var temp := made.value;
    temp.selected := current;
    rest := Run(temp, after);
    chosen := temp.selected;
  }

  /** Enter on a list or scroll item: the value chosen in the menu of its values becomes its selection. */
  method EnterChoice(menu: TerminalMenuStruct, after: seq<Input>) returns (rest: seq<Input>)
    requires menu.Valid() && IsChoice(menu.items[menu.selected].kind)
    modifies menu`items
    decreases |after|, 5
    ensures menu.Valid() && Suffix(rest, after)
    ensures SameShape(old(menu.items), menu.items)
    ensures var k := old(menu.items[menu.selected].kind);
      menu.items == WithSelectedKind(old(menu.items), menu.selected, k.(selected := menu.items[menu.selected].kind.selected))
  {
    var k := menu.items[menu.selected].kind;
    var chosen;
    rest, chosen := ChooseValue(k.values, k.selected, after);
    var choice := k.(selected := chosen);
    KindChangeKeepsItems(menu.items, menu.selected, choice);
    menu.items := WithSelectedKind(menu.items, menu.selected, choice);
  }

  /**
   * After a submenu has run: when it has an exit name, as a button or Esc in it or
   * below it sets one, the menu takes over that name and the canceled flag and stops.
   */
  method TakeExit(menu: TerminalMenuStruct, sub: TerminalMenuStruct)
    requires sub != menu
    modifies menu`exit, menu`canceled, menu`active
    ensures sub.exit.Some? ==> menu.exit == sub.exit && menu.canceled == sub.canceled && !menu.active
    ensures sub.exit.None? ==>
      menu.exit == old(menu.exit) && menu.canceled == old(menu.canceled) && menu.active == old(menu.active)
  {
    if sub.exit.Some? {
      menu.exit := sub.exit;
      menu.canceled := sub.canceled;
      menu.active := false;
    }
  }

  /** Enter on a submenu item: the submenu runs, then the menu takes over its exit. */
  method EnterSubmenu(menu: TerminalMenuStruct, after: seq<Input>) returns (rest: seq<Input>)
    requires menu.Valid() && menu.items[menu.selected].kind.Submenu?
    modifies menu.Repr
    decreases |after|, 4
    ensures menu.Valid() && Suffix(rest, after)
    ensures menu.items == old(menu.items) && menu.selected == old(menu.selected)
    ensures menu.name == old(menu.name) && menu.exited == old(menu.exited)
    ensures var sub := old(menu.items[menu.selected].kind.menu);
      sub.exit.Some? ==> menu.exit == sub.exit && menu.canceled == sub.canceled && !menu.active
    ensures var sub := old(menu.items[menu.selected].kind.menu);
      sub.exit.None? ==>
        menu.exit == old(menu.exit) && menu.canceled == old(menu.canceled) && menu.active == old(menu.active)
  {
    var sub := menu.items[menu.selected].kind.menu;
    SubmenuValid(menu, menu.selected);
    rest := Run(sub, after);
    forall m | m in menu.Repr
      ensures m.Sound()
    {
      if m !in sub.Repr {
        assert old(m.Sound());
      }
    }
    TakeExit(menu, sub);
  }

  /** Enter on a button: the menu stops, with its own name as the exit. */
  method PressButton(menu: TerminalMenuStruct)
    modifies menu`exit, menu`active
    ensures !menu.active && menu.exit == menu.name
  {
    menu.exit := menu.name;
    menu.active := false;
  }

  /** Enter on a back button: the menu stops and leaves its exit as it was. */
  method PressBackButton(menu: TerminalMenuStruct)
    modifies menu`active
    ensures !menu.active
  {
    menu.active := false;
  }

  /** Enter on a list, scroll or string item: only the items change, and they keep their shape. */
  method EnterValue(menu: TerminalMenuStruct, after: seq<Input>) returns (rest: seq<Input>)
    requires menu.Valid() && (IsChoice(menu.items[menu.selected].kind) || menu.items[menu.selected].kind.StringInput?)
    modifies menu`items
    decreases |after|, 6
    ensures menu.Valid() && Suffix(rest, after) && SameShape(old(menu.items), menu.items)
  {
    if menu.items[menu.selected].kind.StringInput? {
      rest := EnterString(menu, after);
    } else {
      rest := EnterChoice(menu, after);
    }
  }

  /** `handle_enter`, by the kind of the selected item. */
  method HandleEnter(menu: TerminalMenuStruct, inputs: seq<Input>) returns (rest: seq<Input>)
    requires inputs != [] && menu.Valid()
    modifies menu.Repr
    decreases |inputs|, 0
    ensures menu.Valid() && Suffix(rest, inputs) && |rest| < |inputs|
    ensures SameShape(old(menu.items), menu.items) && menu.selected == old(menu.selected)
    ensures menu.name == old(menu.name) && menu.exited == old(menu.exited)
    ensures menu.active ==> menu.exit == old(menu.exit) && menu.canceled == old(menu.canceled) && old(menu.active)
    ensures old(menu.items[menu.selected].kind).Button? ==>
      !menu.active && menu.exit == menu.name && menu.canceled == old(menu.canceled) && menu.items == old(menu.items)
    ensures old(menu.items[menu.selected].kind).BackButton? ==>
      !menu.active && menu.exit == old(menu.exit) && menu.canceled == old(menu.canceled) && menu.items == old(menu.items)
    ensures old(menu.items[menu.selected].kind).Label? ==>
      menu.active == old(menu.active) && menu.items == old(menu.items) && rest == inputs[1..]
  {
    SameShapeReflexive(menu.items);
    var after := inputs[1..];
    var kind := menu.items[menu.selected].kind;
    if kind.Button? {
      PressButton(menu);
      rest := after;
    } else if kind.BackButton? {
      PressBackButton(menu);
      rest := after;
    } else if kind.Submenu? {
      rest := EnterSubmenu(menu, after);
    } else if kind.Label? {
      rest := after;
    } else {
      rest := EnterValue(menu, after);
    }
  }

  /** The up arm of `handle_input`. */
  method SelectPrevious(menu: TerminalMenuStruct)
    requires menu.Valid()
    modifies menu`selected
    ensures menu.Valid() && menu.selected == Dec(menu.items, old(menu.selected))
  {
    menu.selected := Dec(menu.items, menu.selected);
  }

  /** The down arm of `handle_input`. */
  method SelectNext(menu: TerminalMenuStruct)
    requires menu.Valid()
    modifies menu`selected
    ensures menu.Valid() && menu.selected == Inc(menu.items, old(menu.selected))
  {
    menu.selected := Inc(menu.items, menu.selected);
  }

  /** The Esc arm of `handle_input`: the menu stops, canceled, with its own name as the exit. */
  method Quit(menu: TerminalMenuStruct)
    modifies menu`active, menu`exit, menu`canceled
    ensures !menu.active && menu.exit == menu.name && menu.canceled
  {
    menu.active := false;
    menu.exit := menu.name;
    menu.canceled := true;
  }

  /** The arms of `handle_input` for every key but Enter, which all stay within the menu. */
  method HandleKey(menu: TerminalMenuStruct, action: Action)
    requires menu.Valid() && action != Confirm
    modifies menu`items, menu`selected, menu`active, menu`exit, menu`canceled
    ensures menu.Valid() && SameShape(old(menu.items), menu.items)
    ensures menu.active ==> menu.exit == old(menu.exit) && menu.canceled == old(menu.canceled) && old(menu.active)
    ensures action == Cancel ==> !menu.active && menu.exit == menu.name && menu.canceled && menu.items == old(menu.items)
    ensures action == MoveUp ==>
      menu.selected == Dec(old(menu.items), old(menu.selected)) && menu.items == old(menu.items) && menu.active == old(menu.active)
    ensures action == MoveDown ==>
      menu.selected == Inc(old(menu.items), old(menu.selected)) && menu.items == old(menu.items) && menu.active == old(menu.active)
    ensures action == LowerValue ==>
      menu.active == old(menu.active) && menu.selected == old(menu.selected) &&
      menu.items == WithSelectedKind(old(menu.items), menu.selected, DecValueOf(old(menu.items[menu.selected].kind)))
    ensures action == RaiseValue ==>
      menu.active == old(menu.active) && menu.selected == old(menu.selected) &&
      menu.items == WithSelectedKind(old(menu.items), menu.selected, IncValueOf(old(menu.items[menu.selected].kind)))
    ensures action == Ignore ==> menu.active == old(menu.active) && menu.selected == old(menu.selected) && menu.items == old(menu.items)
  {
    SameShapeReflexive(menu.items);
    match action
    case MoveUp => SelectPrevious(menu);
    case MoveDown => SelectNext(menu);
    case LowerValue => DecValue(menu);
    case RaiseValue => IncValue(menu);
    case Cancel => Quit(menu);
    case Ignore =>
  }

  /** One event of `handle_input`: Enter is handled by `handle_enter`, anything but a key press is skipped. */
  method HandleEvent(menu: TerminalMenuStruct, inputs: seq<Input>) returns (rest: seq<Input>)
    requires inputs != [] && menu.Valid()
    modifies menu.Repr
    decreases |inputs|, 1
    ensures menu.Valid() && Suffix(rest, inputs) && |rest| < |inputs|
    ensures SameShape(old(menu.items), menu.items)
    ensures menu.name == old(menu.name) && menu.exited == old(menu.exited)
    ensures menu.active ==> menu.exit == old(menu.exit) && menu.canceled == old(menu.canceled) && old(menu.active)
    ensures !inputs[0].Press? ==> rest == inputs[1..] && menu.items == old(menu.items)
    ensures !inputs[0].Press? ==> menu.selected == old(menu.selected) && menu.active == old(menu.active)
    ensures inputs[0].Press? && ActionOf(inputs[0].code) != Confirm ==> rest == inputs[1..]
    ensures inputs[0].Press? && ActionOf(inputs[0].code) == Cancel ==>
      !menu.active && menu.exit == menu.name && menu.canceled && menu.items == old(menu.items)
  {
    SameShapeReflexive(menu.items);
    rest := inputs[1..];
    if !inputs[0].Press? {
      return;
    }
    var action := ActionOf(inputs[0].code);
    if action == Confirm {
      rest := HandleEnter(menu, inputs);
    } else {
      HandleKey(menu, action);
    }
  }

  /** The inputs after which `handle_input` returns: a poll that finds nothing, or Esc. */
  predicate EndsBatch(input: Input)
  {
    input.Idle? || (input.Press? && ActionOf(input.code) == Cancel)
  }

  /**
   * `handle_input`: the events pending are handled one after another until a poll
   * finds none or Esc is pressed. A button that stops the menu does not end the
   * batch: the events after it are handled all the same.
   */
  method HandleInput(menu: TerminalMenuStruct, inputs: seq<Input>) returns (rest: seq<Input>)
    requires menu.Valid()
    modifies menu.Repr
    decreases |inputs|, 2
    ensures menu.Valid() && Suffix(rest, inputs) && (inputs != [] ==> |rest| < |inputs|)
    ensures SameShape(old(menu.items), menu.items)
    ensures menu.name == old(menu.name) && menu.exited == old(menu.exited)
    ensures menu.active ==> menu.exit == old(menu.exit) && menu.canceled == old(menu.canceled) && old(menu.active)
    ensures rest == [] || (|rest| < |inputs| && EndsBatch(inputs[|inputs| - |rest| - 1]))
    ensures inputs != [] && inputs[0].Idle? ==>
      rest == inputs[1..] && menu.items == old(menu.items) && menu.selected == old(menu.selected) && menu.active == old(menu.active)
    ensures inputs != [] && inputs[0].Press? && ActionOf(inputs[0].code) == Cancel ==>
      rest == inputs[1..] && !menu.active && menu.exit == menu.name && menu.canceled && menu.items == old(menu.items)
  {
    SameShapeReflexive(menu.items);
    rest := inputs;
    while rest != []
      invariant menu.Valid() && Suffix(rest, inputs)
      invariant SameShape(old(menu.items), menu.items)
      invariant menu.name == old(menu.name) && menu.exited == old(menu.exited)
      invariant menu.active ==> menu.exit == old(menu.exit) && menu.canceled == old(menu.canceled) && old(menu.active)
      invariant rest == inputs ==>
        menu.items == old(menu.items) && menu.selected == old(menu.selected) && menu.active == old(menu.active)
      invariant rest != inputs ==> inputs != [] && !EndsBatch(inputs[0])
      decreases |rest|
    {
      var input := rest[0];
      if input.Idle? {
        rest := rest[1..];
        return;
      }
      var before := rest;
      ghost var items := menu.items;
      rest := HandleEvent(menu, rest);
      SuffixTransitive(rest, before, inputs);
      SameShapeTransitive(old(menu.items), items, menu.items);
      if EndsBatch(input) {
        assert inputs[|inputs| - |rest| - 1] == input;
        return;
      }
    }
  }

  /**
   * `run`: the menu becomes active, not exited and not canceled, handles batches of
   * inputs as long as it is active after a batch, and is then exited. When the inputs run out first, the
   * menu is still open.
   */
  method Run(menu: TerminalMenuStruct, inputs: seq<Input>) returns (rest: seq<Input>)
    requires menu.Valid()
    modifies menu.Repr
    decreases |inputs|, 3
    ensures menu.Valid() && Suffix(rest, inputs)
    ensures SameShape(old(menu.items), menu.items) && menu.name == old(menu.name)
    ensures menu.exited <==> !menu.active
    ensures menu.active ==> rest == [] && menu.exit == old(menu.exit) && !menu.canceled
  {
    menu.active := true;
    menu.exited := false;
    menu.canceled := false;
    rest := inputs;
    while menu.active && rest != []
      invariant menu.Valid() && Suffix(rest, inputs)
      invariant SameShape(old(menu.items), menu.items) && menu.name == old(menu.name)
      invariant !menu.exited
      invariant menu.active ==> menu.exit == old(menu.exit) && !menu.canceled
      decreases |rest|
    {
      var before := rest;
      ghost var items := menu.items;
      rest := HandleInput(menu, rest);
      SuffixTransitive(rest, before, inputs);
      SameShapeTransitive(old(menu.items), items, menu.items);
    }
    if !menu.active {
      menu.exited := true;
    }
  }
}
