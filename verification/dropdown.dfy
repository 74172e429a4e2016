/** `DropdownComponent`: a menu that is either open or closed. */
module Dropdown {

  datatype Dropdown = Dropdown(isOpen: bool)

  /** A new dropdown starts closed. */
  function Initial(): (d: Dropdown)
    ensures !d.isOpen
  {
    Dropdown(false)
  }

  /** A click on the trigger flips the state. */
  function Toggle(d: Dropdown): (r: Dropdown)
    ensures r.isOpen == !d.isOpen
  {
    Dropdown(!d.isOpen)
  }

  function Open(d: Dropdown): (r: Dropdown)
    ensures r.isOpen
  {
    Dropdown(true)
  }

  function Close(d: Dropdown): (r: Dropdown)
    ensures !r.isOpen
  {
    Dropdown(false)
  }

  /** A document click closes the menu unless it landed on the trigger or inside the
      menu; a click there leaves it as it is (the trigger's own toggle is a separate
      handler). */
  function HandleOutsideClick(d: Dropdown, onTrigger: bool, inMenu: bool): (r: Dropdown)
    ensures !onTrigger && !inMenu ==> !r.isOpen
    ensures onTrigger || inMenu ==> r == d
  {
    if !onTrigger && !inMenu then Close(d) else d
  }

  /** Toggling twice restores the state; opening and closing are idempotent and forget
      the state they start from. */
  lemma ToggleInvolution(d: Dropdown)
    ensures Toggle(Toggle(d)) == d
    ensures Open(Open(d)) == Open(d) && Close(Close(d)) == Close(d)
    ensures Open(d) == Open(Close(d)) && Close(d) == Close(Open(d))
  {
  }

  /** Enter or Space on the profile trigger: close an open menu, open a closed one. */
  function HandleTriggerKey(d: Dropdown, key: string): (r: Dropdown)
    ensures key == "Enter" || key == " " ==> r.isOpen == !d.isOpen
    ensures key != "Enter" && key != " " ==> r == d
  {
    if key == "Enter" || key == " " then
      if d.isOpen then Close(d) else Open(d)
    else d
  }

  /** The keyboard handler on the trigger behaves as the click toggle does. */
  lemma TriggerKeyIsToggle(d: Dropdown, key: string)
    requires key == "Enter" || key == " "
    ensures HandleTriggerKey(d, key) == Toggle(d)
    ensures HandleTriggerKey(HandleTriggerKey(d, key), key) == d
  {
  }
}

/** Keyboard navigation among the links of the profile menu on the home page. */
module MenuNavigation {
  import opened Dropdown

  /** The index focused by ArrowDown from link `i` of `n`: the next one, wrapping from
      the last link to the first. The handler is attached only to existing links, so
      `i` is a valid index and `n` is positive; both operands of the remainder are then
      non-negative, where the script's truncating `%` and Dafny's agree. */
  function NextIndex(i: nat, n: nat): (j: nat)
    requires i < n
    ensures j < n
    ensures i + 1 < n ==> j == i + 1
    ensures i + 1 == n ==> j == 0
  {
    (i + 1) % n
  }

  /** The index focused by ArrowUp: the previous one, wrapping from the first link to
      the last. */
  function PrevIndex(i: nat, n: nat): (j: nat)
    requires i < n
    ensures j < n
    ensures i > 0 ==> j == i - 1
    ensures i == 0 ==> j == n - 1
  {
    (i - 1 + n) % n
  }

  /** Up undoes Down and Down undoes Up. */
  lemma UpUndoesDown(i: nat, n: nat)
    requires i < n
    ensures PrevIndex(NextIndex(i, n), n) == i
    ensures NextIndex(PrevIndex(i, n), n) == i
  {
  }

  /** The index reached by pressing ArrowDown `k` times from `i`. */
  function PressDown(i: nat, n: nat, k: nat): (j: nat)
    requires i < n
    ensures j < n
  {
    if k == 0 then i else NextIndex(PressDown(i, n, k - 1), n)
  }

  /** Up to a full round, `k` presses of ArrowDown move `k` places forward, wrapping
      past the last link to the first. */
  lemma {:induction false} PressDownIsRotation(i: nat, n: nat, k: nat)
    requires i < n && k <= n
    ensures PressDown(i, n, k) == if i + k < n then i + k else i + k - n
  {
    if k > 0 {
      PressDownIsRotation(i, n, k - 1);
    }
  }

  /** Pressing ArrowDown once per link comes back to the starting link. */
  lemma FullCircle(i: nat, n: nat)
    requires i < n
    ensures PressDown(i, n, n) == i
  {
    PressDownIsRotation(i, n, n);
  }

  /** Where the focus goes after a key press on a menu link. */
  datatype Focus = Unchanged | Link(index: nat) | Trigger

  datatype NavResult = NavResult(focus: Focus, menu: Dropdown)

  /** `handleDropdownKeyNavigation`: ArrowDown and ArrowUp move the focus round the
      links; Escape closes the menu and returns the focus to the trigger; any other key
      does nothing. */
  function HandleKeyNavigation(key: string, i: nat, n: nat, menu: Dropdown): (r: NavResult)
    requires i < n
    ensures key == "ArrowDown" ==> r == NavResult(Link(NextIndex(i, n)), menu)
    ensures key == "ArrowUp" ==> r == NavResult(Link(PrevIndex(i, n)), menu)
    ensures key == "Escape" ==> r.focus == Trigger && !r.menu.isOpen
    ensures key !in {"ArrowDown", "ArrowUp", "Escape"} ==> r == NavResult(Unchanged, menu)
    ensures r.focus.Link? ==> r.focus.index < n
  {
    match key
    case "ArrowDown" => NavResult(Link(NextIndex(i, n)), menu)
    case "ArrowUp" => NavResult(Link(PrevIndex(i, n)), menu)
    case "Escape" => NavResult(Trigger, Close(menu))
    case _ => NavResult(Unchanged, menu)
  }
}
