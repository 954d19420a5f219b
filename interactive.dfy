/**
 * The interactive role picker: its state (`App`), the cursor and selection
 * operations, the warnings that block submission, the key-handling transitions
 * of the event loop and the column widths of the table. Drawing and the
 * terminal are not modelled; key events arrive as a sequence.
 */
module Interactive {
  import opened Wrappers
  import opened Text
  import RoleModel

  /** `ITEM_HEIGHT`: rows per table entry, the scrollbar's step. */
  const ItemHeight: nat := 2
  /** The longest duration, in minutes, that Up reaches. */
  const MaxDuration: nat := 480
  const U16Max: nat := 0xFFFF
  const U64Max: nat := 0xFFFF_FFFF_FFFF_FFFF

  const JustificationRequired := "Justification is required"
  const SelectionRequired := "At least one role must be selected"

  /** `InputState`: which section has the focus. */
  datatype InputState = Duration | Justification | Scopes

  datatype KeyCode = Tab | BackTab | Char(c: char) | Backspace | Down | Up | Enter | Esc | OtherKey
  datatype KeyEventKind = Press | Release | Repeat
  datatype KeyEvent = KeyEvent(kind: KeyEventKind, code: KeyCode)

  /** One row of the table: an assignment and whether it is ticked. */
  datatype Entry = Entry(value: RoleAssignment, enabled: bool)
  type RoleAssignment = RoleModel.RoleAssignment

  /** `Selected`: what Enter hands back. */
  datatype Selected = Selected(assignments: seq<RoleAssignment>, justification: string, duration: nat)

  /** The focus after Tab. */
  function TabFocus(s: InputState): InputState {
    match s
    case Justification => Scopes
    case Scopes => Duration
    case Duration => Justification
  }

  /** The focus after BackTab. */
  function BackTabFocus(s: InputState): InputState {
    match s
    case Duration => Scopes
    case Justification => Duration
    case Scopes => Justification
  }

  /** BackTab undoes Tab and Tab undoes BackTab; three Tabs visit every section and come back. */
  lemma TabCycle(s: InputState)
    ensures BackTabFocus(TabFocus(s)) == s && TabFocus(BackTabFocus(s)) == s
    ensures TabFocus(s) != s && TabFocus(TabFocus(s)) != s && TabFocus(TabFocus(TabFocus(s))) == s
  {
  }

  /** The cursor after `next`. */
  function NextIndex(selected: Option<nat>, len: nat): (i: nat)
    requires len > 0
    ensures i < len
    ensures selected.Some? && selected.value + 1 < len ==> i == selected.value + 1
    ensures selected.None? || selected.value + 1 >= len ==> i == 0
  {
    match selected
    case Some(i) => if i >= len - 1 then 0 else i + 1
    case None => 0
  }

  /** The cursor after `previous`. */
  function PreviousIndex(selected: Option<nat>, len: nat): (i: nat)
    requires len > 0
    ensures selected.Some? && selected.value < len ==> i < len
    ensures selected.Some? && 0 < selected.value ==> i == selected.value - 1
    ensures selected == Some(0) ==> i == len - 1
    ensures selected.None? ==> i == 0
  {
    match selected
    case Some(i) => if i == 0 then len - 1 else i - 1
    case None => 0
  }

  /** Down then Up, or Up then Down, brings the cursor back: the list wraps around. */
  lemma NextPreviousInverse(i: nat, len: nat)
    requires i < len
    ensures PreviousIndex(Some(NextIndex(Some(i), len)), len) == i
    ensures NextIndex(Some(PreviousIndex(Some(i), len)), len) == i
  {
  }

  /** Duration Down: `x.saturating_sub(1).max(1)`. */
  function DurationDown(x: nat): (y: nat)
    ensures y >= 1
    ensures x > 1 ==> y == x - 1
    ensures x <= 1 ==> y == 1
    ensures y <= x || x == 0
  {
    var lowered := if x == 0 then 0 else x - 1;
    if lowered < 1 then 1 else lowered
  }

  /** Duration Up: `x.saturating_add(1).min(480)` on a `u64`. */
  function DurationUp(x: nat): (y: nat)
    requires x <= U64Max
    ensures y <= MaxDuration
    ensures x < MaxDuration ==> y == x + 1
    ensures x >= MaxDuration ==> y == MaxDuration
  {
    var raised := if x == U64Max then U64Max else x + 1;
    if raised > MaxDuration then MaxDuration else raised
  }

  /** Inside the range 1..480 the two duration keys undo each other. */
  lemma DurationKeysInverse(x: nat)
    requires 1 <= x <= MaxDuration
    ensures x < MaxDuration ==> DurationDown(DurationUp(x)) == x
    ensures x > 1 ==> DurationUp(DurationDown(x)) == x
  {
  }

  /** The warnings `check` leaves. */
  function Warnings(justification: Option<string>, items: seq<Entry>): (w: seq<string>)
    ensures JustificationRequired in w <==> justification == Some("")
    ensures SelectionRequired in w <==> forall e :: e in items ==> !e.enabled
    ensures w == [] <==> justification != Some("") && exists e :: e in items && e.enabled
  {
    (if justification == Some("") then [JustificationRequired] else [])
      + (if forall e :: e in items ==> !e.enabled then [SelectionRequired] else [])
  }

  /** The ticked assignments, in table order. */
  function EnabledValues(items: seq<Entry>): (r: seq<RoleAssignment>)
    ensures |r| <= |items|
    ensures forall a :: a in r <==> exists e :: e in items && e.enabled && e.value == a
    decreases |items|
  {
    if items == [] then []
    else
      var init := items[..|items| - 1];
      var last := items[|items| - 1];
      assert forall e :: e in items <==> e in init || e == last by {
        assert items == init + [last];
      }
      EnabledValues(init) + (if last.enabled then [last.value] else [])
  }

  /**
   * The selection keeps table order: selecting from two tables one after the
   * other is selecting from the two joined, and a single entry contributes its
   * value exactly when it is ticked.
   */
  lemma {:induction false} EnabledValuesAppend(a: seq<Entry>, b: seq<Entry>)
    ensures EnabledValues(a + b) == EnabledValues(a) + EnabledValues(b)
    ensures |b| == 1 ==> EnabledValues(b) == (if b[0].enabled then [b[0].value] else [])
    decreases |b|
  {
    if b != [] {
      var init, last := b[..|b| - 1], b[|b| - 1];
      assert (a + b)[..|a + b| - 1] == a + init;
      assert (a + b)[|a + b| - 1] == last;
      EnabledValuesAppend(a, init);
      if |b| == 1 {
        assert init == [];
      }
    } else {
      assert a + b == a;
    }
  }

  /** The items with entry `i` flipped. */
  function Toggled(items: seq<Entry>, i: nat): (r: seq<Entry>)
    requires i < |items|
    ensures |r| == |items|
    ensures r[i].value == items[i].value && r[i].enabled == !items[i].enabled
    ensures forall j :: 0 <= j < |items| && j != i ==> r[j] == items[j]
  {
    items[i := Entry(items[i].value, !items[i].enabled)]
  }

  /** Toggling the same entry twice restores the table. */
  lemma ToggleTwice(items: seq<Entry>, i: nat)
    requires i < |items|
    ensures Toggled(Toggled(items, i), i) == items
  {
    var twice := Toggled(Toggled(items, i), i);
    assert forall j :: 0 <= j < |items| ==> twice[j] == items[j];
  }

  /** The widths of the three columns, as the fold computes them: (scope name, role, scope), in bytes. */
  function Widths(assignments: seq<RoleAssignment>): (w: (nat, nat, nat))
    ensures forall a :: a in assignments ==>
      Utf8Len(a.scopeName) <= w.0 && Utf8Len(a.role.name) <= w.1 && Utf8Len(a.scope.path) <= w.2
    ensures w.0 == 0 || exists a :: a in assignments && Utf8Len(a.scopeName) == w.0
    ensures w.1 == 0 || exists a :: a in assignments && Utf8Len(a.role.name) == w.1
    ensures w.2 == 0 || exists a :: a in assignments && Utf8Len(a.scope.path) == w.2
    decreases |assignments|
  {
    if assignments == [] then (0, 0, 0)
    else
      var init := assignments[..|assignments| - 1];
      var x := assignments[|assignments| - 1];
      assert forall a :: a in assignments <==> a in init || a == x by {
        assert assignments == init + [x];
      }
      var w := Widths(init);
      (Max(w.0, Utf8Len(x.scopeName)), Max(w.1, Utf8Len(x.role.name)), Max(w.2, Utf8Len(x.scope.path)))
  }

  function Max(a: nat, b: nat): nat {
    if a < b then b else a
  }

  datatype WidthError = TooWide

  /** `column_widths`: (role width, widest of scope name and scope), each converted to `u16`. */
  function ColumnWidths(assignments: seq<RoleAssignment>): (r: Result<(nat, nat), WidthError>)
    ensures r.Ok? <==> Widths(assignments).1 <= U16Max && Max(Widths(assignments).0, Widths(assignments).2) <= U16Max
    ensures r.Ok? ==> r.value.0 <= U16Max && r.value.1 <= U16Max
    ensures r.Ok? ==> forall a :: a in assignments ==>
      Utf8Len(a.role.name) <= r.value.0 && Utf8Len(a.scopeName) <= r.value.1 && Utf8Len(a.scope.path) <= r.value.1
  {
    var w := Widths(assignments);
    if w.1 > U16Max then Err(TooWide)
    else if Max(w.0, w.2) > U16Max then Err(TooWide)
    else Ok((w.1, Max(w.0, w.2)))
  }

  /** The focus after a pressed key. */
  function FocusAfter(s: InputState, code: KeyCode): InputState {
    match code
    case Tab => TabFocus(s)
    case BackTab => BackTabFocus(s)
    case _ => s
  }

  /** The justification after a pressed key while it has the focus. */
  function JustificationAfter(j: Option<string>, code: KeyCode): Option<string> {
    match j
    case None => None
    case Some(text) =>
      match code
      case Char(c) => Some(text + [c])
      case Backspace => Some(if text == [] then [] else text[..|text| - 1])
      case _ => j
  }

  /** The duration after a pressed key while it has the focus. */
  function DurationAfter(d: Option<nat>, code: KeyCode): Option<nat>
    requires d.Some? ==> d.value <= U64Max
  {
    match d
    case None => None
    case Some(x) =>
      match code
      case Down => Some(DurationDown(x))
      case Up => Some(DurationUp(x))
      case _ => d
  }

  /** `App` */
  class App {
    var duration: Option<nat>
    var inputState: InputState
    var selected: Option<nat>
    var justification: Option<string>
    var items: seq<Entry>
    var longestItemLens: (nat, nat)
    var scrollLength: nat
    var scrollPosition: nat
    var warnings: seq<string>

    ghost predicate Valid()
      reads this
    {
      && |items| > 0
      && selected.Some? && selected.value < |items|
      && (duration.Some? ==> duration.value <= U64Max)
    }

    /** The field initialisers of `App::new`, once the column widths are known. */
    constructor (assignments: seq<RoleAssignment>, justification: Option<string>, duration: Option<nat>, widths: (nat, nat))
      requires |assignments| > 0
      requires duration.Some? ==> duration.value <= U64Max
      ensures Valid()
      ensures this.duration == duration && this.justification == justification
      ensures inputState == (if justification.None? then Scopes else Justification)
      ensures selected == Some(0)
      ensures |items| == |assignments| && forall i :: 0 <= i < |items| ==> items[i] == Entry(assignments[i], false)
      ensures longestItemLens == widths
      ensures scrollLength == (|assignments| - 1) * ItemHeight && scrollPosition == 0
      ensures warnings == []
    {
      this.duration := duration;
      inputState := if justification.None? then Scopes else Justification;
      selected := Some(0);
      this.justification := justification;
      longestItemLens := widths;
      scrollLength := (|assignments| - 1) * ItemHeight;
      scrollPosition := 0;
      items := seq(|assignments|, i requires 0 <= i < |assignments| => Entry(assignments[i], false));
      warnings := [];
    }

    /** `toggle_current`: flips the entry under the cursor and nothing else. */
    method ToggleCurrent()
      requires Valid()
      modifies this`items
      ensures Valid()
      ensures items == Toggled(old(items), selected.value)
    {
      items := Toggled(items, selected.value);
    }

    /** `next`: moves the cursor down, wrapping from the last row to the first. */
    method Next()
      requires Valid()
      modifies this`selected, this`scrollPosition
      ensures Valid()
      ensures selected == Some(NextIndex(old(selected), |items|))
      ensures scrollPosition == selected.value * ItemHeight
    {
      var i := match selected
        case Some(i) => if i >= |items| - 1 then 0 else i + 1
        case None => 0;
      selected := Some(i);
      scrollPosition := i * ItemHeight;
    }

    /** `previous`: moves the cursor up, wrapping from the first row to the last. */
    method Previous()
      requires Valid()
      modifies this`selected, this`scrollPosition
      ensures Valid()
      ensures selected == Some(PreviousIndex(old(selected), |items|))
      ensures scrollPosition == selected.value * ItemHeight
    {
      var i := match selected
        case Some(i) => if i == 0 then |items| - 1 else i - 1
        case None => 0;
      selected := Some(i);
      scrollPosition := i * ItemHeight;
    }

    /** `check`: recomputes the warnings from the justification and the ticks. */
    method Check()
      modifies this`warnings
      ensures warnings == Warnings(justification, items)
    {
      warnings := [];
      if justification.Some? && justification.value == "" {
        warnings := warnings + [JustificationRequired];
      }
      if forall e :: e in items ==> !e.enabled {
        warnings := warnings + [SelectionRequired];
      }
    }

    /**
     * One key event of `run`: `outcome` is `None` while the loop goes on,
     * `Some(None)` for Esc and `Some(Some(s))` for an accepted Enter.
     */
    method HandleKey(event: KeyEvent) returns (outcome: Option<Option<Selected>>)
      requires Valid()
      modifies this`inputState, this`justification, this`duration, this`items, this`selected, this`scrollPosition
      ensures Valid()
      ensures var pressed := event.kind == Press;
        && inputState == (if pressed then FocusAfter(old(inputState), event.code) else old(inputState))
        && justification == (if pressed && old(inputState) == Justification then JustificationAfter(old(justification), event.code) else old(justification))
        && duration == (if pressed && old(inputState) == Duration then DurationAfter(old(duration), event.code) else old(duration))
        && items == (if pressed && old(inputState) == Scopes && event.code == Char(' ') then Toggled(old(items), old(selected).value) else old(items))
        && selected == (if pressed && old(inputState) == Scopes && event.code == Down then Some(NextIndex(old(selected), |items|))
                        else if pressed && old(inputState) == Scopes && event.code == Up then Some(PreviousIndex(old(selected), |items|))
                        else old(selected))
        && outcome == (if pressed && event.code == Esc then Some(None)
                       else if pressed && event.code == Enter && warnings == [] then
                         Some(Some(Selected(EnabledValues(items), justification.GetOr(""), duration.GetOr(0))))
                       else None)
      ensures scrollPosition == (if event.kind == Press && old(inputState) == Scopes && (event.code == Down || event.code == Up)
                                 then selected.value * ItemHeight else old(scrollPosition))
    {
      outcome := None;
      if event.kind != Press {
        return;
      }
      match (inputState, event.code) {
        case (Justification, Tab) =>
          inputState := Scopes;
        case (Duration, BackTab) =>
          inputState := Scopes;
        case (Scopes, Tab) =>
          inputState := Duration;
        case (Justification, BackTab) =>
          inputState := Duration;
        case (Duration, Tab) =>
          inputState := Justification;
        case (Scopes, BackTab) =>
          inputState := Justification;
        case (Justification, Char(c)) =>
          if justification.Some? {
            justification := Some(justification.value + [c]);
          }
        case (Justification, Backspace) =>
          if justification.Some? && justification.value != [] {
            justification := Some(justification.value[..|justification.value| - 1]);
          }
        case (Duration, Down) =>
          if duration.Some? {
            duration := Some(DurationDown(duration.value));
          }
        case (Duration, Up) =>
          if duration.Some? {
            duration := Some(DurationUp(duration.value));
          }
        case (Scopes, Char(' ')) =>
          ToggleCurrent();
        case (Scopes, Down) =>
          Next();
        case (Scopes, Up) =>
          Previous();
        case (_, Esc) =>
          outcome := Some(None);
        case (_, Enter) =>
          if warnings == [] {
            outcome := Some(Some(Selected(EnabledValues(items), justification.GetOr(""), duration.GetOr(0))));
          }
        case _ =>
      }
    }

    /**
     * `run`: checks once, then handles each pressed key and checks again. The
     * result is `None` when the events run out before Esc or an accepted Enter.
     */
    method Run(events: seq<KeyEvent>) returns (result: Option<Option<Selected>>)
      requires Valid()
      modifies this
      ensures Valid()
      ensures warnings == Warnings(justification, items)
      ensures result.Some? && result.value.Some? ==>
        && result.value.value.assignments == EnabledValues(items)
        && justification != Some("")
        && result.value.value.justification == justification.GetOr("")
        && |result.value.value.assignments| > 0
        && result.value.value.duration == duration.GetOr(0)
      ensures (exists k :: 0 <= k < |events| && events[k] == KeyEvent(Press, Esc)) ==> result.Some?
      ensures result == Some(None) ==> exists k :: 0 <= k < |events| && events[k] == KeyEvent(Press, Esc)
    {
      Check();
      var k := 0;
      while k < |events|
        invariant 0 <= k <= |events|
        invariant Valid()
        invariant warnings == Warnings(justification, items)
        invariant forall j :: 0 <= j < k ==> events[j] != KeyEvent(Press, Esc)
      {
        var outcome := HandleKey(events[k]);
        if outcome.Some? {
          if outcome.value.Some? {
            EnabledNonEmpty(items);
          }
          return outcome;
        }
        Check();
        k := k + 1;
      }
      result := None;
    }
  }

  /** With at least one tick, the selection is not empty. */
  lemma {:induction false} EnabledNonEmpty(items: seq<Entry>)
    requires exists e :: e in items && e.enabled
    ensures |EnabledValues(items)| > 0
  {
    var e :| e in items && e.enabled;
    assert e.value in EnabledValues(items);
  }

  /** `App::new`: fails when a column is wider than a `u16`; needs at least one assignment. */
  method NewApp(assignments: seq<RoleAssignment>, justification: Option<string>, duration: Option<nat>)
    returns (r: Result<App, WidthError>)
    requires |assignments| > 0
    requires duration.Some? ==> duration.value <= U64Max
    ensures r.Err? <==> ColumnWidths(assignments).Err?
    ensures r.Ok? ==>
      && fresh(r.value) && r.value.Valid()
      && r.value.longestItemLens == ColumnWidths(assignments).value
      && r.value.selected == Some(0)
      && r.value.inputState == (if justification.None? then Scopes else Justification)
      && r.value.duration == duration && r.value.justification == justification
      && |r.value.items| == |assignments|
      && (forall i :: 0 <= i < |r.value.items| ==> r.value.items[i] == Entry(assignments[i], false))
      && r.value.warnings == []
  {
    var widths := ColumnWidths(assignments);
    if widths.Err? {
      return Err(widths.error);
    }
    var app := new App(assignments, justification, duration, widths.value);
    r := Ok(app);
  }
}
