/**
 * The Dropdown compound component: the open/closed state shared through its
 * context, the trigger button, the viewport-aware placement of the menu
 * (which side of the trigger it opens on and how it is aligned), and the
 * menu items with their click and arrow-key handling.
 *
 * DOM reads (bounding rectangles, the window size, the list of enabled
 * items, whether a click landed inside) arrive here as parameters.
 */
module Dropdown {
  import opened Common

  // ---------------------------------------------------------------------------
  // Placement
  // ---------------------------------------------------------------------------

  datatype Side = Top | Bottom | Left | Right
  datatype Align = Start | Center | End

  /** The placement the menu renders with (`position` state). */
  datatype Position = Position(align: Align, side: Side)

  /** What `getBoundingClientRect` reports for the trigger. */
  datatype Rect = Rect(top: real, bottom: real, left: real, right: real, width: real)

  /** The measurements calculatePosition reads: trigger, menu size and window size. */
  datatype Geometry = Geometry(trigger: Rect, menuWidth: real, menuHeight: real, viewportWidth: real, viewportHeight: real)

  function Opposite(s: Side): (r: Side)
    ensures r != s
    ensures IsVertical(r) <==> IsVertical(s)
  {
    match s
    case Top => Bottom
    case Bottom => Top
    case Left => Right
    case Right => Left
  }

  predicate IsVertical(s: Side) {
    s == Top || s == Bottom
  }

  /**
   * Whether the menu, placed on side `s` at distance `offset` from the
   * trigger, stays inside the viewport along that side's axis.
   */
  predicate Fits(s: Side, g: Geometry, offset: real) {
    match s
    case Bottom => g.trigger.bottom + g.menuHeight + offset <= g.viewportHeight
    case Top => g.trigger.top - g.menuHeight - offset >= 0.0
    case Right => g.trigger.right + g.menuWidth + offset <= g.viewportWidth
    case Left => g.trigger.left - g.menuWidth - offset >= 0.0
  }

  /**
   * The side the menu opens on: the requested side, unless the menu does not
   * fit there and does fit on the opposite side.
   */
  function FinalSide(side: Side, g: Geometry, offset: real): Side {
    if !Fits(side, g, offset) && Fits(Opposite(side), g, offset) then Opposite(side) else side
  }

  /** Where the left edge of the menu would be when centred under or over the trigger. */
  function CenterLeft(g: Geometry): real {
    g.trigger.left + g.trigger.width / 2.0 - g.menuWidth / 2.0
  }

  /**
   * The alignment a vertically placed menu uses: start-aligned menus that
   * would run past the right edge switch to end, end-aligned menus that would
   * run past the left edge switch to start, and a centred menu moves to
   * whichever edge it would cross.
   */
  function AdjustAlign(align: Align, g: Geometry): Align {
    match align
    case Start => if g.trigger.left + g.menuWidth > g.viewportWidth then End else Start
    case End => if g.trigger.right - g.menuWidth < 0.0 then Start else End
    case Center =>
      if CenterLeft(g) < 0.0 then Start
      else if CenterLeft(g) + g.menuWidth > g.viewportWidth then End
      else Center
  }

  /** The alignment: adjusted for a menu above or below the trigger, unchanged beside it. */
  function FinalAlign(align: Align, side: Side, g: Geometry, offset: real): Align {
    if IsVertical(FinalSide(side, g, offset)) then AdjustAlign(align, g) else align
  }

  function Placement(align: Align, side: Side, g: Geometry, offset: real): Position {
    Position(FinalAlign(align, side, g, offset), FinalSide(side, g, offset))
  }

  /** The menu always opens on the requested side or on its opposite; vertical stays vertical. */
  lemma SideIsRequestedOrOpposite(side: Side, g: Geometry, offset: real)
    ensures FinalSide(side, g, offset) == side || FinalSide(side, g, offset) == Opposite(side)
    ensures IsVertical(FinalSide(side, g, offset)) <==> IsVertical(side)
  {
  }

  /**
   * The side flips exactly when the requested side overflows and the opposite
   * one has room, so a flip always lands on a side that fits, and a side
   * that fits is never abandoned.
   */
  lemma FlipOnlyWhenBetter(side: Side, g: Geometry, offset: real)
    ensures FinalSide(side, g, offset) != side <==> !Fits(side, g, offset) && Fits(Opposite(side), g, offset)
    ensures FinalSide(side, g, offset) != side ==> Fits(FinalSide(side, g, offset), g, offset)
    ensures Fits(side, g, offset) ==> FinalSide(side, g, offset) == side
  {
  }

  /**
   * A menu taller than the viewport, requested below a trigger that is in
   * view, fits on neither side and stays below.
   */
  lemma TallMenuStaysBelow(g: Geometry, offset: real)
    requires offset >= 0.0
    requires 0.0 <= g.trigger.top <= g.trigger.bottom <= g.viewportHeight
    requires g.menuHeight > g.viewportHeight
    ensures !Fits(Bottom, g, offset) && !Fits(Top, g, offset)
    ensures FinalSide(Bottom, g, offset) == Bottom
  {
  }

  /** The alignment rules, each as an if-and-only-if. */
  lemma AlignRules(g: Geometry)
    ensures AdjustAlign(Start, g) == End <==> g.trigger.left + g.menuWidth > g.viewportWidth
    ensures AdjustAlign(Start, g) != Center
    ensures AdjustAlign(End, g) == Start <==> g.trigger.right - g.menuWidth < 0.0
    ensures AdjustAlign(End, g) != Center
    ensures AdjustAlign(Center, g) == Start <==> CenterLeft(g) < 0.0
    ensures AdjustAlign(Center, g) == End <==> CenterLeft(g) >= 0.0 && CenterLeft(g) + g.menuWidth > g.viewportWidth
  {
  }

  /**
   * A menu beside the trigger keeps the requested alignment; above or below
   * it, the alignment only changes when the requested one would push the
   * menu past a viewport edge.
   */
  lemma AlignOnlyForVertical(align: Align, side: Side, g: Geometry, offset: real)
    ensures !IsVertical(side) ==> FinalAlign(align, side, g, offset) == align
    ensures IsVertical(side) && FinalAlign(align, side, g, offset) != align ==>
              match align
              case Start => g.trigger.left + g.menuWidth > g.viewportWidth
              case End => g.trigger.right - g.menuWidth < 0.0
              case Center => CenterLeft(g) < 0.0 || CenterLeft(g) + g.menuWidth > g.viewportWidth
  {
    SideIsRequestedOrOpposite(side, g, offset);
  }

  /**
   * The menu's state: the requested side and alignment and the offset (its
   * props), and the placement it currently renders with.
   */
  class DropdownMenu {
    const side: Side
    const align: Align
    const sideOffset: real
    var position: Position

    /** `useState({ align, side })`: the first render uses the requested placement. */
    constructor (side: Side, align: Align, sideOffset: real)
      ensures this.side == side && this.align == align && this.sideOffset == sideOffset
      ensures position == Position(align, side)
    {
      this.side := side;
      this.align := align;
      this.sideOffset := sideOffset;
      position := Position(align, side);
    }

    /**
     * calculatePosition: nothing happens while the menu element is not
     * mounted; otherwise the side is checked along its own axis (vertical
     * sides first, then the alignment of a vertical result, then the
     * horizontal sides) and the result is stored.
     */
    method CalculatePosition(mounted: bool, g: Geometry)
      modifies this
      ensures !mounted ==> position == old(position)
      ensures mounted ==> position == Placement(align, side, g, sideOffset)
    {
      if !mounted {
        return;
      }
      var t := g.trigger;
      var newSide := side;
      var newAlign := align;

      if side == Bottom && t.bottom + g.menuHeight + sideOffset > g.viewportHeight {
        if t.top - g.menuHeight - sideOffset >= 0.0 {
          newSide := Top;
        }
      } else if side == Top && t.top - g.menuHeight - sideOffset < 0.0 {
        if t.bottom + g.menuHeight + sideOffset <= g.viewportHeight {
          newSide := Bottom;
        }
      }

      if newSide == Top || newSide == Bottom {
        if align == Start && t.left + g.menuWidth > g.viewportWidth {
          newAlign := End;
        } else if align == End && t.right - g.menuWidth < 0.0 {
          newAlign := Start;
        } else if align == Center {
          var centerLeft := t.left + t.width / 2.0 - g.menuWidth / 2.0;
          if centerLeft < 0.0 {
            newAlign := Start;
          } else if centerLeft + g.menuWidth > g.viewportWidth {
            newAlign := End;
          }
        }
      }

      if side == Left && t.left - g.menuWidth - sideOffset < 0.0 {
        if t.right + g.menuWidth + sideOffset <= g.viewportWidth {
          newSide := Right;
        }
      } else if side == Right && t.right + g.menuWidth + sideOffset > g.viewportWidth {
        if t.left - g.menuWidth - sideOffset >= 0.0 {
          newSide := Left;
        }
      }

      position := Position(newAlign, newSide);
    }

    /**
     * The effect's run when the menu opens: recompute the placement and
     * focus the first enabled item. The resize and scroll listeners it
     * installs only recompute the placement, as CalculatePosition does.
     * `itemDisabled` lists the menu items in document order.
     */
    method OnOpen(isOpen: bool, mounted: bool, g: Geometry, itemDisabled: seq<bool>) returns (focus: Option<nat>)
      modifies this
      ensures !(isOpen && mounted) ==> position == old(position) && focus.None?
      ensures isOpen && mounted ==> position == Placement(align, side, g, sideOffset)
      ensures isOpen && mounted ==> focus == FirstEnabled(itemDisabled)
    {
      focus := None;
      if isOpen && mounted {
        CalculatePosition(mounted, g);
        focus := FirstEnabled(itemDisabled);
      }
    }
  }

  // ---------------------------------------------------------------------------
  // Menu items and keyboard focus
  // ---------------------------------------------------------------------------

  /** `querySelector('[role="menuitem"]:not([aria-disabled="true"])')`: the first enabled item. */
  function FirstEnabled(itemDisabled: seq<bool>): (r: Option<nat>)
    ensures r.Some? ==> r.value < |itemDisabled| && !itemDisabled[r.value]
    ensures r.Some? ==> forall j :: 0 <= j < r.value ==> itemDisabled[j]
    ensures r.None? <==> forall j :: 0 <= j < |itemDisabled| ==> itemDisabled[j]
  {
    FirstIndex(itemDisabled, (d: bool) => !d)
  }

  /** The keys a menu item reacts to; anything else is `Other`. */
  datatype ItemKey = Enter | Space | ArrowDown | ArrowUp | Other

  /**
   * The index, among the `count` enabled items, that an arrow key moves the
   * focus to from index `current` (-1 when the focused item is not among
   * them); None when there is no such item to focus.
   */
  function ItemFocusTarget(key: ItemKey, current: int, count: nat): (r: Option<nat>)
    ensures key !in {ArrowDown, ArrowUp} ==> r.None?
    ensures r.Some? ==> r.value < count
  {
    var target := match key
      case ArrowDown => WrapNext(current, count)
      case ArrowUp => WrapPrev(current, count)
      case _ => -1;
    if (key == ArrowDown || key == ArrowUp) && 0 <= target < count then Some(target) else None
  }

  /**
   * On a non-empty list, both arrows always move the focus to some item:
   * down goes to the next one and from the last back to the first; up goes
   * to the previous one and from the first to the last. From outside the
   * list (-1), down goes to the first item and up to the last.
   */
  lemma ArrowsWrap(current: int, count: nat)
    requires count > 0
    requires -1 <= current < count
    ensures ItemFocusTarget(ArrowDown, current, count) == Some(if current == count - 1 then 0 else current + 1)
    ensures ItemFocusTarget(ArrowUp, current, count) == Some(if current <= 0 then count - 1 else current - 1)
  {
  }

  /** With no enabled items, the arrows focus nothing. */
  lemma ArrowsOnEmptyList(key: ItemKey, current: int)
    ensures ItemFocusTarget(key, current, 0).None?
  {
  }

  /** Down then up comes back to the item the focus started on. */
  lemma ArrowsUndo(current: nat, count: nat)
    requires current < count
    ensures ItemFocusTarget(ArrowDown, current, count).Some?
    ensures ItemFocusTarget(ArrowUp, ItemFocusTarget(ArrowDown, current, count).value, count) == Some(current)
    ensures ItemFocusTarget(ArrowUp, current, count).Some?
    ensures ItemFocusTarget(ArrowDown, ItemFocusTarget(ArrowUp, current, count).value, count) == Some(current)
  {
    WrapInverse(current, count);
  }

  // ---------------------------------------------------------------------------
  // Open state
  // ---------------------------------------------------------------------------

  /** What a handler makes happen outside the component's own state. */
  datatype Effect =
    | OpenChange(open: bool)   // onOpenChange(open), when the prop is given
    | ItemAction               // the item's own onClick, when given

  /** The keys the page-level listener and the trigger button look at. */
  datatype Key = EscapeKey | EnterKey | SpaceKey | OtherKey

  /** The `isOpen` state of one Dropdown, shared with its parts through the context. */
  class DropdownState {
    var isOpen: bool

    constructor (defaultOpen: bool)
      ensures isOpen == defaultOpen
    {
      isOpen := defaultOpen;
    }

    /** toggleOpen: negate and report the new value. */
    method ToggleOpen() returns (effects: seq<Effect>)
      modifies this
      ensures isOpen == !old(isOpen)
      ensures effects == [OpenChange(isOpen)]
    {
      var newOpen := !isOpen;
      isOpen := newOpen;
      effects := [OpenChange(newOpen)];
    }

    /** The context's setIsOpen: store and report the given value. */
    method SetOpen(open: bool) returns (effects: seq<Effect>)
      modifies this
      ensures isOpen == open
      ensures effects == [OpenChange(open)]
    {
      isOpen := open;
      effects := [OpenChange(open)];
    }

    /**
     * A mousedown anywhere on the page. The listener exists only while the
     * menu is open; a press outside the mounted dropdown closes it.
     */
    method MouseDown(mounted: bool, inside: bool) returns (effects: seq<Effect>)
      modifies this
      ensures old(isOpen) && mounted && !inside ==> !isOpen && effects == [OpenChange(false)]
      ensures !(old(isOpen) && mounted && !inside) ==> isOpen == old(isOpen) && effects == []
    {
      effects := [];
      if isOpen && mounted && !inside {
        effects := SetOpen(false);
      }
    }

    /** A keydown anywhere on the page: Escape closes an open menu. */
    method DocumentKeyDown(key: Key) returns (effects: seq<Effect>)
      modifies this
      ensures old(isOpen) && key == EscapeKey ==> !isOpen && effects == [OpenChange(false)]
      ensures !(old(isOpen) && key == EscapeKey) ==> isOpen == old(isOpen) && effects == []
    {
      effects := [];
      if isOpen && key == EscapeKey {
        effects := SetOpen(false);
      }
    }

    /** DropdownButton's click: toggles unless the button is disabled. */
    method ButtonClick(disabled: bool) returns (effects: seq<Effect>)
      modifies this
      ensures disabled ==> isOpen == old(isOpen) && effects == []
      ensures !disabled ==> isOpen == !old(isOpen) && effects == [OpenChange(isOpen)]
    {
      effects := [];
      if !disabled {
        effects := ToggleOpen();
      }
    }

    /** DropdownButton's keydown: Enter and Space act as a click. */
    method ButtonKeyDown(key: Key, disabled: bool) returns (effects: seq<Effect>)
      modifies this
      ensures (key == EnterKey || key == SpaceKey) && !disabled ==> isOpen == !old(isOpen) && effects == [OpenChange(isOpen)]
      ensures !((key == EnterKey || key == SpaceKey) && !disabled) ==> isOpen == old(isOpen) && effects == []
    {
      effects := [];
      if key == EnterKey || key == SpaceKey {
        effects := ButtonClick(disabled);
      }
    }

    /** DropdownMenuItem's click: an enabled item runs its action, then closes the menu. */
    method ItemClick(disabled: bool, hasOnClick: bool) returns (effects: seq<Effect>)
      modifies this
      ensures disabled ==> isOpen == old(isOpen) && effects == []
      ensures !disabled ==> !isOpen
      ensures !disabled ==> effects == (if hasOnClick then [ItemAction] else []) + [OpenChange(false)]
    {
      effects := [];
      if !disabled {
        if hasOnClick {
          effects := [ItemAction];
        }
        var closing := SetOpen(false);
        effects := effects + closing;
      }
    }

    /**
     * DropdownMenuItem's keydown: Enter and Space click the item; the arrows
     * move the focus among the `count` enabled items.
     */
    method ItemKeyDown(key: ItemKey, disabled: bool, hasOnClick: bool, current: int, count: nat)
      returns (effects: seq<Effect>, focus: Option<nat>)
      modifies this
      ensures key == Enter || key == Space ==> focus.None?
      ensures (key == Enter || key == Space) && !disabled ==>
                !isOpen && effects == (if hasOnClick then [ItemAction] else []) + [OpenChange(false)]
      ensures !((key == Enter || key == Space) && !disabled) ==> isOpen == old(isOpen) && effects == []
      ensures focus == ItemFocusTarget(key, current, count)
    {
      effects := [];
      focus := None;
      match key {
        case Enter =>
          effects := ItemClick(disabled, hasOnClick);
        case Space =>
          effects := ItemClick(disabled, hasOnClick);
        case ArrowDown =>
          focus := ItemFocusTarget(ArrowDown, current, count);
        case ArrowUp =>
          focus := ItemFocusTarget(ArrowUp, current, count);
        case Other =>
      }
    }
  }

  /** Toggling twice restores the state and reports both changes. */
  method ToggleTwice(d: DropdownState) returns (effects: seq<Effect>)
    modifies d
    ensures d.isOpen == old(d.isOpen)
    ensures effects == [OpenChange(!old(d.isOpen)), OpenChange(old(d.isOpen))]
  {
    var first := d.ToggleOpen();
    var second := d.ToggleOpen();
    effects := first + second;
  }
}
