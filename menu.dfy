/**
 * The terminal menu crate the downloader vendors: menu items of each kind, and the
 * menu struct holding the items, the index of the selected item and the flags the
 * running loop reads and writes. A submenu item holds a menu object of its own, so
 * the menus form a tree; `Repr` is the set of menus of a tree, fixed when the menu
 * is built, and a tree is valid when each of its menus is sound on its own.
 */
module Menu {
  import opened Wrappers

  /** The kinds of item. Numeric items are not part of this model. */
  datatype Kind =
    | Label
    | Button
    | BackButton
    | Scroll(values: seq<string>, selected: nat)
    | List(values: seq<string>, selected: nat)
    | StringInput(value: string, allowEmpty: bool)
    | Submenu(menu: TerminalMenuStruct)

  datatype Item = Item(name: string, kind: Kind)

  /** The panics of the crate, each as an error value. */
  datatype MenuError =
    | EmptyValues
    | NoSelectableItems
    | NoItemWithName
    | IndexOutOfBounds
    | WrongKind
    | NotFoundOrWrongKind
    | NotExited

  /** Every item but a label can be selected. */
  predicate Selectable(item: Item)
  {
    !item.kind.Label?
  }

  /** Scroll and list items choose one of their values. */
  predicate IsChoice(k: Kind)
  {
    k.Scroll? || k.List?
  }

  predicate ChoiceInRange(k: Kind)
  {
    IsChoice(k) ==> k.selected < |k.values|
  }

  predicate ChoicesInRange(items: seq<Item>)
  {
    forall i :: 0 <= i < |items| ==> ChoiceInRange(items[i].kind)
  }

  /**
   * Two kinds that differ at most in the value they currently hold: the same
   * constructor, the same values to choose from, the same empty-input flag, the
   * same submenu object.
   */
  predicate SameKind(a: Kind, b: Kind)
  {
    match a
    case Scroll(values, _) => b.Scroll? && b.values == values
    case List(values, _) => b.List? && b.values == values
    case StringInput(_, allowEmpty) => b.StringInput? && b.allowEmpty == allowEmpty
    case _ => b == a
  }

  /** Two item lists that differ at most in the values their items hold. */
  predicate SameShape(a: seq<Item>, b: seq<Item>)
  {
    |a| == |b| && forall i :: 0 <= i < |a| ==> a[i].name == b[i].name && SameKind(a[i].kind, b[i].kind)
  }

  lemma SameShapeReflexive(a: seq<Item>)
    ensures SameShape(a, a)
  {
    forall i | 0 <= i < |a|
      ensures SameKind(a[i].kind, a[i].kind)
    {
    }
  }

  lemma SameShapeTransitive(a: seq<Item>, b: seq<Item>, c: seq<Item>)
    requires SameShape(a, b) && SameShape(b, c)
    ensures SameShape(a, c)
  {
    forall i | 0 <= i < |a|
      ensures a[i].name == c[i].name && SameKind(a[i].kind, c[i].kind)
    {
      assert SameKind(a[i].kind, b[i].kind) && SameKind(b[i].kind, c[i].kind);
    }
  }

  // ---------------------------------------------------------------------------
  // Item constructors
  // ---------------------------------------------------------------------------

  /** `label`: an item that cannot be selected. */
  function LabelItem(text: string): Item
  {
    Item(text, Label)
  }

  /** `button`: exits the menu and all its parents when pressed. */
  function ButtonItem(name: string): Item
  {
    Item(name, Button)
  }

  /** `back_button`: returns to the parent menu when pressed. */
  function BackButtonItem(name: string): Item
  {
    Item(name, BackButton)
  }

  /** `scroll`: refuses an empty list of values and starts on the first value. */
  function ScrollItem(name: string, values: seq<string>): (r: Result<Item, MenuError>)
    ensures r.Err? <==> values == []
    ensures r.Err? ==> r.error == EmptyValues
    ensures r.Ok? ==> r.value.name == name && r.value.kind.Scroll? && r.value.kind.values == values
    ensures r.Ok? ==> r.value.kind.selected == 0 && ChoiceInRange(r.value.kind)
  {
    if values == [] then Err(EmptyValues) else Ok(Item(name, Scroll(values, 0)))
  }

  /** `scroll_with_default_value`: refuses an empty list; the default selection is not checked. */
  function ScrollWithDefault(name: string, values: seq<string>, default: nat): (r: Result<Item, MenuError>)
    ensures r.Err? <==> values == []
    ensures r.Err? ==> r.error == EmptyValues
    ensures r.Ok? ==> r.value.name == name && r.value.kind.Scroll? && r.value.kind.values == values
    ensures r.Ok? ==> r.value.kind.selected == default && (ChoiceInRange(r.value.kind) <==> default < |values|)
  {
    if values == [] then Err(EmptyValues) else Ok(Item(name, Scroll(values, default)))
  }

  /** `list`: refuses an empty list of values and starts on the first value. */
  function ListItem(name: string, values: seq<string>): (r: Result<Item, MenuError>)
    ensures r.Err? <==> values == []
    ensures r.Err? ==> r.error == EmptyValues
    ensures r.Ok? ==> r.value.name == name && r.value.kind.List? && r.value.kind.values == values
    ensures r.Ok? ==> r.value.kind.selected == 0 && ChoiceInRange(r.value.kind)
  {
    if values == [] then Err(EmptyValues) else Ok(Item(name, List(values, 0)))
  }

  /** `list_with_default_value`: refuses an empty list; the default selection is not checked. */
  function ListWithDefault(name: string, values: seq<string>, default: nat): (r: Result<Item, MenuError>)
    ensures r.Err? <==> values == []
    ensures r.Err? ==> r.error == EmptyValues
    ensures r.Ok? ==> r.value.name == name && r.value.kind.List? && r.value.kind.values == values
    ensures r.Ok? ==> r.value.kind.selected == default && (ChoiceInRange(r.value.kind) <==> default < |values|)
  {
    if values == [] then Err(EmptyValues) else Ok(Item(name, List(values, default)))
  }

  /** `string`: a text entry with its default value. */
  function StringItem(name: string, default: string, allowEmpty: bool): Item
  {
    Item(name, StringInput(default, allowEmpty))
  }

  // ---------------------------------------------------------------------------
  // Searching the items
  // ---------------------------------------------------------------------------

  /** The first position whose element satisfies `p`, as `Iterator::position` finds it. */
  function FirstIndex<T>(s: seq<T>, p: T -> bool): (r: Option<nat>)
    ensures r.Some? ==> r.value < |s| && p(s[r.value])
    ensures r.Some? ==> forall j :: 0 <= j < r.value ==> !p(s[j])
    ensures r.None? <==> forall j :: 0 <= j < |s| ==> !p(s[j])
    decreases |s|
  {
    if s == [] then None
    else if p(s[0]) then Some(0)
    else
      match FirstIndex(s[1..], p)
      case None => None
      case Some(k) => assert s[1..][k] == s[k + 1]; Some(k + 1)
  }

  /** The first item that is not a label. */
  function FirstSelectable(items: seq<Item>): Option<nat>
  {
    FirstIndex(items, Selectable)
  }

  // ---------------------------------------------------------------------------
  // The menu tree
  // ---------------------------------------------------------------------------

  /**
   * The menus in `owned` are sound, `owned` holds every menu below each of them, and
   * the submenus of `items` lie in `owned` with all the menus below them.
   */
  ghost predicate Owned(items: seq<Item>, owned: set<TerminalMenuStruct>)
    reads owned
  {
    (forall i :: 0 <= i < |items| && items[i].kind.Submenu? ==>
       items[i].kind.menu in owned && items[i].kind.menu.Repr <= owned)
    && forall m :: m in owned ==> m.Repr <= owned && m.Sound()
  }

  /** `TerminalMenuStruct`, without the fields that only the drawing code uses. */
  class TerminalMenuStruct {
    var name: Option<string>
    var items: seq<Item>
    var selected: nat
    var active: bool
    var exited: bool
    var exit: Option<string>
    var canceled: bool
    /** This menu and every menu below it. */
    ghost const Repr: set<TerminalMenuStruct>

    /**
     * What this menu needs of itself: the selection is one of its items, at least one
     * item can be selected, every list and scroll item's selection is one of its
     * values, and each submenu lies below this menu and does not contain it.
     */
    ghost predicate Sound()
      reads this`items, this`selected
    {
      this in Repr
      && selected < |items|
      && FirstSelectable(items).Some?
      && ChoicesInRange(items)
      && forall i :: 0 <= i < |items| && items[i].kind.Submenu? ==>
           var sub := items[i].kind.menu;
           sub in Repr && sub.Repr <= Repr && this !in sub.Repr
    }

    /** Every menu of the tree is sound. */
    ghost predicate Valid()
      reads Repr`items, Repr`selected
    {
      this in Repr && Sound() && forall m {:trigger m.Sound()} :: m in Repr ==> m.Sound()
    }

    /** The struct literal `menu` builds: not named, not active, exited, nothing canceled. */
    constructor (items: seq<Item>, selected: nat, ghost owned: set<TerminalMenuStruct>)
      requires selected < |items| && Selectable(items[selected])
      requires ChoicesInRange(items) && Owned(items, owned)
      ensures Valid() && Repr == {this} + owned
      ensures this.items == items && this.selected == selected
      ensures name == None && !active && exited && exit == None && !canceled
    {
      this.items := items;
      this.selected := selected;
      name := None;
      active := false;
      exited := true;
      exit := None;
      canceled := false;
      Repr := {this} + owned;
    }

    /** `index_of`: the first item with the name; no such item is an error. */
    function IndexOf(name: string): (r: Result<nat, MenuError>)
      reads this
      ensures r.Ok? ==> r.value < |items| && items[r.value].name == name
      ensures r.Ok? ==> forall j :: 0 <= j < r.value ==> items[j].name != name
      ensures r.Err? <==> forall j :: 0 <= j < |items| ==> items[j].name != name
      ensures r.Err? ==> r.error == NoItemWithName
    {
      match FirstIndex(items, (it: Item) => it.name == name)
      case None => Err(NoItemWithName)
      case Some(i) => Ok(i)
    }

    /** `set_selected_item_with_name`: selects the first item with the name. */
    method SetSelectedItemWithName(name: string) returns (err: Option<MenuError>)
      requires Valid()
      modifies this`selected
      ensures Valid()
      ensures err.None? <==> exists j :: 0 <= j < |items| && items[j].name == name
      ensures err.None? ==> selected == IndexOf(name).value
      ensures err.Some? ==> err.value == NoItemWithName && selected == old(selected)
    {
      var i := IndexOf(name);
      if i.Err? {
        return Some(i.error);
      }
      selected := i.value;
      return None;
    }

    /** `set_selected_item_with_index`: an index past the last item is an error. */
    method SetSelectedItemWithIndex(item: nat) returns (err: Option<MenuError>)
      requires Valid()
      modifies this`selected
      ensures Valid()
      ensures err.None? <==> item < |items|
      ensures err.None? ==> selected == item
      ensures err.Some? ==> err.value == IndexOutOfBounds && selected == old(selected)
    {
      if item >= |items| {
        return Some(IndexOutOfBounds);
      }
      selected := item;
      return None;
    }

    /**
     * `selection_value`: the chosen value of the first scroll or list item with the
     * name, or the text of a string item; an unknown name, a selection past the
     * values and any other kind of item are errors.
     */
    function SelectionValue(name: string): (r: Result<string, MenuError>)
      reads this
      ensures IndexOf(name).Err? ==> r == Err(NoItemWithName)
      ensures r.Ok? ==> IndexOf(name).Ok?
      ensures IndexOf(name).Ok? ==>
        var k := items[IndexOf(name).value].kind;
        && (IsChoice(k) ==> r == if k.selected < |k.values| then Ok(k.values[k.selected]) else Err(IndexOutOfBounds))
        && (k.StringInput? ==> r == Ok(k.value))
        && (!IsChoice(k) && !k.StringInput? ==> r == Err(WrongKind))
    {
      match IndexOf(name)
      case Err(e) => Err(e)
      case Ok(i) =>
        match items[i].kind
        case Scroll(values, selected) => if selected < |values| then Ok(values[selected]) else Err(IndexOutOfBounds)
        case List(values, selected) => if selected < |values| then Ok(values[selected]) else Err(IndexOutOfBounds)
        case StringInput(value, _) => Ok(value)
        case _ => Err(WrongKind)
    }

    /** `get_submenu`: the menu of the first submenu item with the name. */
    function GetSubmenu(name: string): (r: Result<TerminalMenuStruct, MenuError>)
      reads this
      ensures r.Err? <==> forall j :: 0 <= j < |items| ==> !(items[j].name == name && items[j].kind.Submenu?)
      ensures r.Err? ==> r.error == NotFoundOrWrongKind
      ensures r.Ok? ==> exists i :: (0 <= i < |items| && items[i] == Item(name, Submenu(r.value))
                                     && forall j :: 0 <= j < i ==> !(items[j].name == name && items[j].kind.Submenu?))
    {
      match FirstIndex(items, (it: Item) => it.name == name && it.kind.Submenu?)
      case None => Err(NotFoundOrWrongKind)
      case Some(i) => Ok(items[i].kind.menu)
    }
  }

  /** The menu of a submenu item of a valid menu is valid, lies below it and does not contain it. */
  lemma SubmenuValid(menu: TerminalMenuStruct, i: nat)
    requires menu.Valid() && i < |menu.items| && menu.items[i].kind.Submenu?
    ensures var sub := menu.items[i].kind.menu;
      sub.Valid() && sub.Repr <= menu.Repr && menu !in sub.Repr && sub != menu
  {
    var sub := menu.items[i].kind.menu;
    assert menu.Sound() && sub in menu.Repr && sub.Sound();
    forall m | m in sub.Repr
      ensures m.Sound()
    {
      assert m in menu.Repr;
    }
  }

  /** `mut_menu`: the menu may be changed only once it has exited. */
  function MutMenu(menu: TerminalMenuStruct): (r: Result<TerminalMenuStruct, MenuError>)
    reads menu
    ensures r.Ok? <==> menu.exited
    ensures r.Ok? ==> r.value == menu
    ensures r.Err? ==> r.error == NotExited
  {
    if menu.exited then Ok(menu) else Err(NotExited)
  }

  /**
   * `menu`: selects the first item that is not a label; a menu of labels only is an
   * error. `owned` holds the objects of the submenus among the items.
   */
  method NewMenu(items: seq<Item>, ghost owned: set<TerminalMenuStruct>) returns (r: Result<TerminalMenuStruct, MenuError>)
    requires ChoicesInRange(items) && Owned(items, owned)
    ensures r.Err? <==> forall j :: 0 <= j < |items| ==> !Selectable(items[j])
    ensures r.Err? ==> r.error == NoSelectableItems
    ensures r.Ok? ==> fresh(r.value) && r.value.Valid() && r.value.Repr == {r.value} + owned
    ensures r.Ok? ==> r.value.items == items && r.value.selected < |items| && Selectable(items[r.value.selected])
    ensures r.Ok? ==> forall j :: 0 <= j < r.value.selected ==> !Selectable(items[j])
    ensures r.Ok? ==> r.value.name == None && !r.value.active && r.value.exited
    ensures r.Ok? ==> r.value.exit == None && !r.value.canceled
  {
    for i := 0 to |items|
      invariant forall j :: 0 <= j < i ==> !Selectable(items[j])
    {
      if Selectable(items[i]) {
        var m := new TerminalMenuStruct(items, i, owned);
        return Ok(m);
      }
    }
    return Err(NoSelectableItems);
  }

  /** `submenu`: a menu of the items, named after the item that holds it. */
  method NewSubmenu(name: string, items: seq<Item>, ghost owned: set<TerminalMenuStruct>) returns (r: Result<Item, MenuError>)
    requires ChoicesInRange(items) && Owned(items, owned)
    ensures r.Err? <==> forall j :: 0 <= j < |items| ==> !Selectable(items[j])
    ensures r.Err? ==> r.error == NoSelectableItems
    ensures r.Ok? ==> r.value.name == name && r.value.kind.Submenu?
    ensures r.Ok? ==> var m := r.value.kind.menu;
      fresh(m) && m.Valid() && m.Repr == {m} + owned && m.name == Some(name) && m.items == items
  {
    var m := NewMenu(items, owned);
    if m.Err? {
      return Err(m.error);
    }
    var menu := m.value;
    menu.name := Some(name);
    return Ok(Item(name, Submenu(menu)));
  }
}
