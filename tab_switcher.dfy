/**
 * The Tabs compound component: a selected value that is either controlled
 * by the parent or kept internally, optionally mirrored into a URL search
 * parameter; a tab list with keyboard navigation; triggers that select their
 * value; and content panels shown for the selected value.
 *
 * The URL's search parameters are a map from parameter name to value. The
 * component's own `useSearchParams` keeps that map in per-component state
 * that starts empty; the model takes the starting map as a parameter, and
 * `MountWithEmptyParams` states what happens from the empty one. The list
 * of enabled triggers and the focused one arrive as parameters.
 */
module TabSwitcher {
  import opened Common

  // ---------------------------------------------------------------------------
  // Selection and URL sync
  // ---------------------------------------------------------------------------

  /** The props of Tabs that decide its selection. `None` stands for an absent prop. */
  datatype Config = Config(
    defaultValue: Option<string>,
    controlled: Option<string>,
    urlParam: string,
    syncWithUrl: bool)

  /** The state Tabs keeps: its internal value and the URL search parameters. */
  datatype State = State(internal: Option<string>, params: map<string, string>)

  /** The state after a handler together with the values it reported through onValueChange. */
  datatype Outcome = Outcome(state: State, reported: seq<string>)

  /** `controlledValue !== undefined`. */
  predicate IsControlled(c: Config) {
    c.controlled.Some?
  }

  /** `searchParams.get(urlParam)`: None when the parameter is absent. */
  function UrlValue(c: Config, params: map<string, string>): Option<string>
  {
    if c.urlParam in params then Some(params[c.urlParam]) else None
  }

  /** The useState initialiser: URL value or default when syncing, else controlled value or default. */
  function InitialValue(c: Config, params: map<string, string>): Option<string>
  {
    if c.syncWithUrl then OrElse(UrlValue(c, params), c.defaultValue)
    else OrElse(c.controlled, c.defaultValue)
  }

  /** The value the tabs show: the controlled value whenever one is supplied. */
  function CurrentValue(c: Config, s: State): Option<string>
  {
    if IsControlled(c) then c.controlled else s.internal
  }

  /**
   * handleValueChange: the internal value is written only when uncontrolled,
   * the URL parameter only when syncing, and the new value is always reported.
   */
  function Select(c: Config, s: State, v: string): (r: Outcome)
    ensures r.reported == [v]
    ensures IsControlled(c) ==> r.state.internal == s.internal
    ensures !IsControlled(c) ==> r.state.internal == Some(v) && CurrentValue(c, r.state) == Some(v)
    ensures !c.syncWithUrl ==> r.state.params == s.params
    ensures c.syncWithUrl ==> UrlValue(c, r.state.params) == Some(v)
    ensures forall k :: k != c.urlParam ==> (k in r.state.params <==> k in s.params)
    ensures forall k :: k != c.urlParam && k in s.params ==> r.state.params[k] == s.params[k]
  {
    var internal := if IsControlled(c) then s.internal else Some(v);
    var params := if c.syncWithUrl then s.params[c.urlParam := v] else s.params;
    Outcome(State(internal, params), [v])
  }

  /**
   * One run of the URL-sync effect. Without syncing it does nothing. A URL
   * value that differs from the current value is adopted (stored when
   * uncontrolled) and reported; with no URL value, a current value is
   * written to the URL.
   */
  function Sync(c: Config, s: State): (r: Outcome)
    ensures !c.syncWithUrl ==> r == Outcome(s, [])
    ensures |r.reported| <= 1
    ensures r.reported != [] ==> Truthy(UrlValue(c, s.params)) && r.reported == [UrlValue(c, s.params).value]
    ensures c.syncWithUrl && !IsControlled(c) && Truthy(UrlValue(c, s.params)) && UrlValue(c, s.params) != CurrentValue(c, s) ==>
              CurrentValue(c, r.state) == UrlValue(c, s.params) && r.reported == [UrlValue(c, s.params).value]
    ensures c.syncWithUrl && !Truthy(UrlValue(c, s.params)) && Truthy(CurrentValue(c, s)) ==>
              UrlValue(c, r.state.params) == CurrentValue(c, s) && r.reported == []
    ensures forall k :: k != c.urlParam ==> (k in r.state.params <==> k in s.params)
    ensures forall k :: k != c.urlParam && k in s.params ==> r.state.params[k] == s.params[k]
  {
    var url := UrlValue(c, s.params);
    var current := CurrentValue(c, s);
    if !c.syncWithUrl then Outcome(s, [])
    else if Truthy(url) && url != current then
      Outcome(State(if IsControlled(c) then s.internal else url, s.params), [url.value])
    else if !Truthy(url) && Truthy(current) then
      Outcome(State(s.internal, s.params[c.urlParam := current.value]), [])
    else Outcome(s, [])
  }

  /**
   * Uncontrolled and syncing, after one run of the effect the URL value and
   * the current value agree whenever either of them is set.
   */
  lemma SyncMakesUrlAndValueAgree(c: Config, s: State)
    requires c.syncWithUrl && !IsControlled(c)
    ensures var s' := Sync(c, s).state;
            Truthy(UrlValue(c, s'.params)) || Truthy(CurrentValue(c, s')) ==>
              UrlValue(c, s'.params) == CurrentValue(c, s')
  {
  }

  /**
   * Uncontrolled and syncing, the first run of the effect after mounting
   * reports nothing: a truthy URL value was already taken as the initial
   * value, and otherwise a truthy default is written to the URL.
   */
  lemma FirstSyncAfterMount(c: Config, params: map<string, string>)
    requires c.syncWithUrl && !IsControlled(c)
    ensures var s := State(InitialValue(c, params), params);
            && Sync(c, s).reported == []
            && (Truthy(UrlValue(c, params)) ==> Sync(c, s).state == s && CurrentValue(c, s) == UrlValue(c, params))
            && (!Truthy(UrlValue(c, params)) && Truthy(c.defaultValue) ==>
                  UrlValue(c, Sync(c, s).state.params) == c.defaultValue && CurrentValue(c, Sync(c, s).state) == c.defaultValue)
  {
  }

  /**
   * From the empty map the component's own `useSearchParams` starts with,
   * the initial value is the default when syncing (and the controlled value
   * or the default otherwise), and the first run of the effect, uncontrolled,
   * writes a truthy default into the map without reporting it.
   */
  lemma MountWithEmptyParams(c: Config)
    ensures c.syncWithUrl ==> InitialValue(c, map[]) == c.defaultValue
    ensures !c.syncWithUrl ==> InitialValue(c, map[]) == OrElse(c.controlled, c.defaultValue)
    ensures c.syncWithUrl && !IsControlled(c) && Truthy(c.defaultValue) ==>
              Sync(c, State(InitialValue(c, map[]), map[])) == Outcome(State(c.defaultValue, map[c.urlParam := c.defaultValue.value]), [])
  {
  }

  /** Uncontrolled, a second run of the effect right after the first changes and reports nothing. */
  lemma SyncIsIdempotent(c: Config, s: State)
    requires !IsControlled(c)
    ensures Sync(c, Sync(c, s).state) == Outcome(Sync(c, s).state, [])
  {
  }

  /**
   * Uncontrolled and syncing, a selection writes the URL itself, so the
   * effect that follows it has nothing to do: the value is reported once.
   */
  lemma SelectThenSyncIsQuiet(c: Config, s: State, v: string)
    requires c.syncWithUrl && !IsControlled(c)
    ensures Sync(c, Select(c, s, v).state) == Outcome(Select(c, s, v).state, [])
  {
  }

  /**
   * Controlled and syncing, a URL value the parent has not adopted is
   * reported again on every run of the effect, since the effect stores
   * nothing: the state stays as it is.
   */
  lemma ControlledSyncRepeats(c: Config, s: State)
    requires c.syncWithUrl && IsControlled(c)
    requires Truthy(UrlValue(c, s.params)) && UrlValue(c, s.params) != c.controlled
    ensures Sync(c, s) == Outcome(s, [UrlValue(c, s.params).value])
  {
  }

  /** The Tabs component: its props and the state it keeps. */
  class Tabs {
    const config: Config
    var internalValue: Option<string>
    var params: map<string, string>

    /** The kept state as a value, for the contracts. */
    function Snapshot(): State
      reads this
    {
      State(internalValue, params)
    }

    /** First render: the internal value starts from InitialValue, the URL as it is. */
    constructor (config: Config, params: map<string, string>)
      ensures this.config == config && this.params == params
      ensures internalValue == InitialValue(config, params)
    {
      this.config := config;
      this.params := params;
      internalValue := InitialValue(config, params);
    }

    function Current(): Option<string>
      reads this
    {
      CurrentValue(config, Snapshot())
    }

    /** handleValueChange, as the triggers call it through the context. */
    method HandleValueChange(newValue: string) returns (reported: seq<string>)
      modifies this
      ensures Outcome(Snapshot(), reported) == Select(config, old(Snapshot()), newValue)
    {
      if !IsControlled(config) {
        internalValue := Some(newValue);
      }
      if config.syncWithUrl {
        params := params[config.urlParam := newValue];
      }
      reported := [newValue];
    }

    /** The URL-sync effect, run after a render in which one of its inputs changed. */
    method SyncWithUrl() returns (reported: seq<string>)
      modifies this
      ensures Outcome(Snapshot(), reported) == Sync(config, old(Snapshot()))
    {
      reported := [];
      if !config.syncWithUrl {
        return;
      }
      var urlValue := UrlValue(config, params);
      var current := Current();
      if Truthy(urlValue) && urlValue != current {
        if !IsControlled(config) {
          internalValue := urlValue;
        }
        reported := [urlValue.value];
      } else if !Truthy(urlValue) && Truthy(current) {
        params := params[config.urlParam := current.value];
      }
    }
  }

  // ---------------------------------------------------------------------------
  // Tab list keyboard navigation
  // ---------------------------------------------------------------------------

  /** The `orientation` prop; any string other than the two it checks for is `Unrecognised`. */
  datatype Orientation = Horizontal | Vertical | Unrecognised

  datatype Key = ArrowLeft | ArrowRight | ArrowUp | ArrowDown | Home | End | Enter | Space | Other

  /** Whether a key moves through the list in this orientation, and in which direction. */
  predicate MovesBack(o: Orientation, key: Key) {
    (o == Horizontal && key == ArrowLeft) || (o == Vertical && key == ArrowUp)
  }

  predicate MovesForward(o: Orientation, key: Key) {
    (o == Horizontal && key == ArrowRight) || (o == Vertical && key == ArrowDown)
  }

  /**
   * The index the list moves to from `current` (-1 when the focused element
   * is not an enabled trigger) among `count` enabled triggers: the arrows of
   * the list's own orientation wrap, Home and End go to the ends, and any
   * other key stays put.
   */
  function NextIndex(o: Orientation, key: Key, current: int, count: nat): int {
    if MovesBack(o, key) then WrapPrev(current, count)
    else if MovesForward(o, key) then WrapNext(current, count)
    else if key == Home then 0
    else if key == End then count - 1
    else current
  }

  /** A trigger is activated only when the target index differs from the current one and exists. */
  function Activation(o: Orientation, key: Key, current: int, count: nat): (r: Option<nat>)
    ensures r.Some? ==> r.value < count && r.value != current
  {
    var next := NextIndex(o, key, current, count);
    if next != current && 0 <= next < count then Some(next) else None
  }

  /**
   * TabsList.handleKeyDown: `nextIndex` starts at the current index and is
   * reassigned by the switch; the trigger at the new index is focused and
   * clicked when it exists and differs.
   */
  method TabsListKeyDown(o: Orientation, key: Key, current: int, count: nat) returns (activate: Option<nat>)
    ensures activate == Activation(o, key, current, count)
  {
    var nextIndex := current;
    match key {
      case ArrowLeft =>
        if o == Horizontal {
          nextIndex := if current > 0 then current - 1 else count - 1;
        }
      case ArrowRight =>
        if o == Horizontal {
          nextIndex := if current < count - 1 then current + 1 else 0;
        }
      case ArrowUp =>
        if o == Vertical {
          nextIndex := if current > 0 then current - 1 else count - 1;
        }
      case ArrowDown =>
        if o == Vertical {
          nextIndex := if current < count - 1 then current + 1 else 0;
        }
      case Home =>
        nextIndex := 0;
      case End =>
        nextIndex := count - 1;
      case _ =>
    }
    activate := None;
    if nextIndex != current && 0 <= nextIndex < count {
      activate := Some(nextIndex);
    }
  }

  /**
   * A horizontal list ignores the up and down arrows, a vertical list the
   * left and right ones, and a list with any other orientation all four.
   */
  lemma ArrowsFollowOrientation(o: Orientation, key: Key, current: int, count: nat)
    requires key in {ArrowLeft, ArrowRight, ArrowUp, ArrowDown}
    requires !(MovesBack(o, key) || MovesForward(o, key))
    ensures Activation(o, key, current, count).None?
  {
  }

  /**
   * With two or more triggers, the arrows of the list's orientation always
   * activate a neighbour, wrapping at both ends; from outside the list the
   * forward arrow goes to the first trigger and the back arrow to the last.
   */
  lemma ArrowsWrap(o: Orientation, current: int, count: nat)
    requires count >= 2 && -1 <= current < count
    requires o != Unrecognised
    ensures var forward := if o == Horizontal then ArrowRight else ArrowDown;
            Activation(o, forward, current, count) == Some(if current == count - 1 then 0 else current + 1)
    ensures var back := if o == Horizontal then ArrowLeft else ArrowUp;
            Activation(o, back, current, count) == Some(if current <= 0 then count - 1 else current - 1)
  {
  }

  /** Home activates the first trigger and End the last, unless it is already the focused one. */
  lemma HomeAndEnd(o: Orientation, current: int, count: nat)
    requires count >= 1
    ensures Activation(o, Home, current, count) == if current == 0 then None else Some(0)
    ensures Activation(o, End, current, count) == if current == count - 1 then None else Some(count - 1)
  {
  }

  // ---------------------------------------------------------------------------
  // Triggers and panels
  // ---------------------------------------------------------------------------

  /** `currentValue === value`. */
  predicate IsActive(value: string, current: Option<string>) {
    current == Some(value)
  }

  /** The roving tabIndex: 0 for the active trigger, -1 for the others. */
  function TabIndex(value: string, current: Option<string>): int
  {
    if IsActive(value, current) then 0 else -1
  }

  /**
   * TabsTrigger.handleClick (and TabsTriggerTailwind's, which is the same):
   * the value handed to onValueChange, if any.
   */
  function TriggerClick(disabled: bool, value: string, current: Option<string>): Option<string>
  {
    if !disabled && Some(value) != current then Some(value) else None
  }

  /** TabsTrigger.handleKeyDown: Enter and Space act as a click; other keys do nothing. */
  function TriggerKeyDown(key: Key, disabled: bool, value: string, current: Option<string>): Option<string>
  {
    if key == Enter || key == Space then TriggerClick(disabled, value, current) else None
  }

  /**
   * TabsContent: None when nothing is rendered, otherwise whether the
   * rendered panel carries `hidden`.
   */
  function ContentRender(value: string, current: Option<string>, forceMount: bool): Option<bool>
  {
    if !IsActive(value, current) && !forceMount then None
    else Some(!IsActive(value, current) && forceMount)
  }

  /**
   * Among triggers with distinct values, when the current value is one of
   * them exactly that trigger is active, it alone is in the tab order, and
   * its panel alone is visible.
   */
  lemma {:induction false} ExactlyOneActive(values: seq<string>, i: nat, current: Option<string>)
    requires forall a, b :: 0 <= a < b < |values| ==> values[a] != values[b]
    requires i < |values| && current == Some(values[i])
    ensures forall j :: 0 <= j < |values| ==> (IsActive(values[j], current) <==> j == i)
    ensures forall j :: 0 <= j < |values| ==> (TabIndex(values[j], current) == 0 <==> j == i)
    ensures forall j :: 0 <= j < |values| ==> (ContentRender(values[j], current, false) == Some(false) <==> j == i)
  {
    forall j | 0 <= j < |values|
      ensures IsActive(values[j], current) <==> j == i
    {
      if j < i {
        assert values[j] != values[i];
      } else if j > i {
        assert values[i] != values[j];
      }
    }
  }

  /**
   * Clicking the active trigger reports nothing; clicking another enabled
   * trigger, or pressing Enter or Space on it, selects it, and after that
   * the trigger is the active one when the tabs are uncontrolled. Other keys
   * on a trigger do nothing.
   */
  lemma ClickSelects(c: Config, s: State, value: string)
    requires !IsControlled(c)
    ensures TriggerClick(false, value, CurrentValue(c, s)).Some? ==>
              IsActive(value, CurrentValue(c, Select(c, s, value).state))
    ensures IsActive(value, CurrentValue(c, s)) ==> TriggerClick(false, value, CurrentValue(c, s)).None?
    ensures forall key :: key in {Enter, Space} && TriggerKeyDown(key, false, value, CurrentValue(c, s)).Some? ==>
              IsActive(value, CurrentValue(c, Select(c, s, value).state))
    ensures forall key :: !(key in {Enter, Space}) ==> TriggerKeyDown(key, false, value, CurrentValue(c, s)).None?
  {
  }
}
