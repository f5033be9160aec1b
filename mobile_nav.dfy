/**
  The mobile navigation menu: the `open` class on the menu and the
  `aria-expanded` attribute of its toggle button. A click on the toggle
  flips the menu; a click on an in-page link, or Escape, closes it; Enter
  or Space on the toggle clicks it.
 */
module MobileNav {

  /** The menu's `open` class and the toggle's `aria-expanded` value. */
  datatype NavState = NavState(open: bool, ariaExpanded: bool)

  /** `aria-expanded` tells assistive technology the truth. */
  predicate Consistent(s: NavState) {
    s.ariaExpanded == s.open
  }

  const Closed: NavState := NavState(false, false)

  /** A click on the toggle: `classList.toggle` flips the class and its
      result is written to `aria-expanded`. */
  function OnToggleClick(s: NavState): (t: NavState)
    ensures t.open == !s.open && Consistent(t)
  {
    var open := !s.open;
    NavState(open, open)
  }

  /** A click on a link whose `href` starts with `#`. The handler first
      looks the target up with `document.querySelector(href)`, which throws
      for an `href` that is not a valid selector (the bare `#`, say); the
      menu is closed only when the lookup returned. */
  function OnAnchorClick(s: NavState, lookupThrows: bool): (t: NavState)
    ensures !lookupThrows ==> !t.open
    ensures !lookupThrows && s.open ==> t == Closed
    ensures lookupThrows || !s.open ==> t == s
  {
    if lookupThrows then s
    else if s.open then Closed
    else s
  }

  /** A key pressed anywhere in the document: Escape closes an open menu. */
  function OnDocumentKey(s: NavState, key: string): (t: NavState)
    ensures key == "Escape" ==> !t.open
    ensures key == "Escape" && s.open ==> t == Closed
    ensures key != "Escape" || !s.open ==> t == s
  {
    if key == "Escape" && s.open then Closed else s
  }

  /** A key pressed on the toggle itself: Enter and Space click it. */
  function OnToggleKey(s: NavState, key: string): (t: NavState)
    ensures key == "Enter" || key == " " ==> t == OnToggleClick(s)
    ensures key != "Enter" && key != " " ==> t == s
  {
    if key == "Enter" || key == " " then OnToggleClick(s) else s
  }

  /** A key event reaches the toggle's listener when the toggle has focus,
      and then bubbles up to the document's. */
  function OnKeyDown(s: NavState, key: string, onToggle: bool): (t: NavState)
    ensures !(onToggle && (key == "Enter" || key == " ")) ==> t == OnDocumentKey(s, key)
    ensures key == "Escape" ==> !t.open
    ensures onToggle && (key == "Enter" || key == " ") ==> t == OnToggleClick(s)
    ensures key != "Escape" && key != "Enter" && key != " " ==> t == s
  {
    OnDocumentKey(if onToggle then OnToggleKey(s, key) else s, key)
  }

  datatype NavEvent =
    | ToggleClick
    | AnchorClick(lookupThrows: bool)
    | KeyDown(key: string, onToggle: bool)

  function Step(s: NavState, e: NavEvent): NavState {
    match e
    case ToggleClick => OnToggleClick(s)
    case AnchorClick(lookupThrows) => OnAnchorClick(s, lookupThrows)
    case KeyDown(key, onToggle) => OnKeyDown(s, key, onToggle)
  }

  function Run(s: NavState, evs: seq<NavEvent>): NavState
    decreases |evs|
  {
    if evs == [] then s else Run(Step(s, evs[0]), evs[1..])
  }

  /** Every handler keeps `aria-expanded` equal to the menu's state. */
  lemma StepKeepsConsistent(s: NavState, e: NavEvent)
    requires Consistent(s)
    ensures Consistent(Step(s, e))
  {
  }

  lemma {:induction false} RunKeepsConsistent(s: NavState, evs: seq<NavEvent>)
    requires Consistent(s)
    ensures Consistent(Run(s, evs))
    decreases |evs|
  {
    if evs != [] {
      StepKeepsConsistent(s, evs[0]);
      RunKeepsConsistent(Step(s, evs[0]), evs[1..]);
    }
  }

  /** Running two sequences one after the other is running their
      concatenation. */
  lemma {:induction false} RunAppend(s: NavState, a: seq<NavEvent>, b: seq<NavEvent>)
    ensures Run(s, a + b) == Run(Run(s, a), b)
    decreases |a|
  {
    if a == [] {
      assert a + b == b;
    } else {
      assert (a + b)[0] == a[0] && (a + b)[1..] == a[1..] + b;
      RunAppend(Step(s, a[0]), a[1..], b);
    }
  }

  /** Whatever the markup started with and whatever came before, the state
      is consistent once the toggle has been clicked, and stays so. */
  lemma ConsistentAfterToggle(s: NavState, pre: seq<NavEvent>, evs: seq<NavEvent>)
    ensures Consistent(Run(s, pre + [ToggleClick] + evs))
  {
    var u := Run(s, pre);
    RunAppend(s, pre, [ToggleClick] + evs);
    assert pre + [ToggleClick] + evs == pre + ([ToggleClick] + evs);
    assert ([ToggleClick] + evs)[1..] == evs;
    RunKeepsConsistent(OnToggleClick(u), evs);
  }

  /** Escape always leaves the menu closed, wherever the focus is. */
  lemma EscapeCloses(s: NavState, onToggle: bool)
    ensures !OnKeyDown(s, "Escape", onToggle).open
    ensures Consistent(s) ==> OnKeyDown(s, "Escape", onToggle) == Closed
  {
  }

  /** Clicking the toggle twice returns a consistent menu to where it was. */
  lemma ToggleTwice(s: NavState)
    requires Consistent(s)
    ensures OnToggleClick(OnToggleClick(s)) == s
  {
  }

  /** Enter or Space on the toggle does what a click does. */
  lemma ActivationKeysToggle(s: NavState, key: string)
    requires key == "Enter" || key == " "
    ensures OnKeyDown(s, key, true) == OnToggleClick(s)
  {
  }

  // ---------------------------------------------------------------------

  /** The two pieces of page state the navigation handlers change. */
  class Nav {
    var open: bool
    var ariaExpanded: bool

    function State(): NavState
      reads this
    {
      NavState(open, ariaExpanded)
    }

    /** The state the page's markup starts the menu in. */
    constructor (open: bool, ariaExpanded: bool)
      ensures State() == NavState(open, ariaExpanded)
    {
      this.open := open;
      this.ariaExpanded := ariaExpanded;
    }

    method ToggleClick()
      modifies this
      ensures State() == OnToggleClick(old(State()))
    {
      open := !open;
      ariaExpanded := open;
    }

    method AnchorClick(lookupThrows: bool)
      modifies this
      ensures State() == OnAnchorClick(old(State()), lookupThrows)
    {
      if lookupThrows {
        return;
      }
      if open {
        open := false;
        ariaExpanded := false;
      }
    }

    method DocumentKeyDown(key: string)
      modifies this
      ensures State() == OnDocumentKey(old(State()), key)
    {
      if key == "Escape" && open {
        open := false;
        ariaExpanded := false;
      }
    }

    method ToggleKeyDown(key: string)
      modifies this
      ensures State() == OnToggleKey(old(State()), key)
    {
      if key == "Enter" || key == " " {
        ToggleClick();
      }
    }

    /** A key event: first the toggle's listener if it has focus, then the
        document's. */
    method KeyDown(key: string, onToggle: bool)
      modifies this
      ensures State() == OnKeyDown(old(State()), key, onToggle)
    {
      if onToggle {
        ToggleKeyDown(key);
      }
      DocumentKeyDown(key);
    }
  }
}
