/** The ownership rule for a widget's layout manager. A widget deletes the
    layout installed in it when the widget is destroyed, and only that one.
    Installing another layout hands the previous one back to the caller, who
    must delete it. A layout that lives on the stack must be detached
    (replaced by none) before the widget is destroyed, or it is deleted a
    second time. The model is a ledger of which layout each delete hits. */
module LayoutOwnership {
  import opened Optional

  type LayoutId = nat

  /** The layout installed in the widget, whether the widget still exists,
      and every delete performed so far (by the widget or by the caller). */
  datatype Ledger = Ledger(current: Option<LayoutId>, widgetAlive: bool,
                           deleted: multiset<LayoutId>)

  /** What `SetLayout` gives back: the new ledger and the layout it replaced. */
  datatype Replaced = Replaced(ledger: Ledger, previous: Option<LayoutId>)

  /** What the program does, in order. `ScopeExit` is the destruction of a
      stack-allocated layout at the end of its block, which deletes it just
      like an explicit delete does. */
  datatype Action =
    | Install(layout: Option<LayoutId>)
    | CallerDelete(id: LayoutId)
    | ScopeExit(id: LayoutId)
    | DestroyWidget

  /** A new widget without a layout; nothing has been deleted yet. */
  function NewWidget(): (l: Ledger)
    ensures l.widgetAlive && l.current.None? && |l.deleted| == 0
  {
    Ledger(None, true, multiset{})
  }

  /** Installs `layout` (none detaches) and returns the previous one. The
      widget deletes nothing here: the previous layout becomes the caller's. */
  function SetLayout(l: Ledger, layout: Option<LayoutId>): (r: Replaced)
    requires l.widgetAlive
    ensures r.previous == l.current
    ensures r.ledger.current == layout && r.ledger.widgetAlive
    ensures r.ledger.deleted == l.deleted
  {
    Replaced(l.(current := layout), l.current)
  }

  /** A delete of `id` by anyone other than the widget. */
  function Delete(l: Ledger, id: LayoutId): (r: Ledger)
    ensures r.deleted[id] == l.deleted[id] + 1
    ensures forall other :: other != id ==> r.deleted[other] == l.deleted[other]
    ensures r.current == l.current && r.widgetAlive == l.widgetAlive
  {
    l.(deleted := l.deleted + multiset{id})
  }

  /** The widget's destructor: it deletes the layout installed at that
      moment, exactly once, and no other. */
  function Destroy(l: Ledger): (r: Ledger)
    requires l.widgetAlive
    ensures !r.widgetAlive && r.current.None?
    ensures l.current.Some? ==> r.deleted[l.current.value] == l.deleted[l.current.value] + 1
    ensures forall other :: Some(other) != l.current ==> r.deleted[other] == l.deleted[other]
  {
    var gone := if l.current.Some? then multiset{l.current.value} else multiset{};
    Ledger(None, false, l.deleted + gone)
  }

  /** Performs one action; absent when a destroyed widget is used again. */
  function Step(l: Ledger, a: Action): Option<Ledger> {
    match a
    case Install(layout) => if l.widgetAlive then Some(SetLayout(l, layout).ledger) else None
    case CallerDelete(id) => Some(Delete(l, id))
    case ScopeExit(id) => Some(Delete(l, id))
    case DestroyWidget => if l.widgetAlive then Some(Destroy(l)) else None
  }

  /** Performs the actions in order; absent when one of them uses a destroyed
      widget. */
  function Run(l: Ledger, actions: seq<Action>): Option<Ledger>
    decreases |actions|
  {
    if |actions| == 0 then Some(l)
    else
      match Step(l, actions[0])
      case None => None
      case Some(l') => Run(l', actions[1..])
  }

  /** No layout has been deleted more than once. */
  predicate NoDoubleDelete(l: Ledger) {
    forall id :: id in l.deleted ==> l.deleted[id] == 1
  }

  /** The installed layout has not been deleted. */
  predicate Consistent(l: Ledger) {
    l.current.Some? ==> l.current.value !in l.deleted
  }

  /** The rule a caller must follow: never install a deleted layout, delete
      (or let go out of scope) only a layout that is not installed and not
      already deleted, and never use the widget after destroying it. */
  predicate Allowed(l: Ledger, a: Action) {
    match a
    case Install(layout) => l.widgetAlive && (layout.Some? ==> layout.value !in l.deleted)
    case CallerDelete(id) => l.current != Some(id) && id !in l.deleted
    case ScopeExit(id) => l.current != Some(id) && id !in l.deleted
    case DestroyWidget => l.widgetAlive
  }

  predicate Disciplined(l: Ledger, actions: seq<Action>)
    decreases |actions|
  {
    |actions| == 0 ||
    (Allowed(l, actions[0]) && Step(l, actions[0]).Some? &&
     Disciplined(Step(l, actions[0]).value, actions[1..]))
  }

  /** One allowed action keeps every layout deleted at most once and the
      installed layout undeleted. */
  lemma AllowedStepIsSafe(l: Ledger, a: Action)
    requires NoDoubleDelete(l) && Consistent(l) && Allowed(l, a)
    ensures Step(l, a).Some?
    ensures NoDoubleDelete(Step(l, a).value) && Consistent(Step(l, a).value)
  {
    var r := Step(l, a).value;
    forall id | id in r.deleted
      ensures r.deleted[id] == 1
    {
      if id !in l.deleted {
        assert r.deleted[id] <= l.deleted[id] + 1;
      }
    }
  }

  /** Following the rule, no layout is ever deleted twice. */
  lemma {:induction false} DisciplineAvoidsDoubleDelete(l: Ledger, actions: seq<Action>)
    requires NoDoubleDelete(l) && Consistent(l) && Disciplined(l, actions)
    ensures Run(l, actions).Some?
    ensures NoDoubleDelete(Run(l, actions).value)
    decreases |actions|
  {
    if |actions| > 0 {
      AllowedStepIsSafe(l, actions[0]);
      DisciplineAvoidsDoubleDelete(Step(l, actions[0]).value, actions[1..]);
    }
  }

  /** A layout replaced by another is never deleted by the widget: after the
      replacement, destroying the widget deletes only the newer layout. */
  lemma ReplacedLayoutIsCallers(l: Ledger, first: LayoutId, second: LayoutId)
    requires l.widgetAlive
    ensures var r := SetLayout(SetLayout(l, Some(first)).ledger, Some(second));
            && r.previous == Some(first)
            && Destroy(r.ledger).deleted == l.deleted + multiset{second}
  {
  }

  /** The heap example: install one layout, replace it by a second, delete
      the returned one, destroy the frame. Each layout is deleted once. */
  lemma HeapExample()
    ensures var better, mine := 1, 2;
            var end := Run(NewWidget(), [Install(Some(mine)), Install(Some(better)),
                                         CallerDelete(mine), DestroyWidget]);
            && end.Some?
            && end.value.deleted == multiset{better, mine}
            && NoDoubleDelete(end.value)
  {
    var better, mine := 1, 2;
    var l1 := SetLayout(NewWidget(), Some(mine)).ledger;
    var l2 := SetLayout(l1, Some(better)).ledger;
    var l3 := Delete(l2, mine);
    var acts := [Install(Some(mine)), Install(Some(better)), CallerDelete(mine), DestroyWidget];
    assert Run(l3, acts[3..]) == Some(Destroy(l3));
    assert Run(l2, acts[2..]) == Run(l3, acts[3..]);
    assert Run(l1, acts[1..]) == Run(l2, acts[2..]);
    assert Destroy(l3).deleted == multiset{mine, better};
  }

  /** The stack example with the detach: the frame is declared before the
      layout, so the layout leaves its scope first; having been detached, it
      is deleted once, by its scope, and the frame deletes nothing. */
  lemma StackExampleDetached()
    ensures var layout := 3;
            var end := Run(NewWidget(), [Install(Some(layout)), Install(None),
                                         ScopeExit(layout), DestroyWidget]);
            && end.Some?
            && end.value.deleted == multiset{layout}
            && NoDoubleDelete(end.value)
  {
    var layout := 3;
    var l1 := SetLayout(SetLayout(NewWidget(), Some(layout)).ledger, None).ledger;
    var l2 := Delete(l1, layout);
    var l0 := SetLayout(NewWidget(), Some(layout)).ledger;
    var acts := [Install(Some(layout)), Install(None), ScopeExit(layout), DestroyWidget];
    assert Run(l2, acts[3..]) == Some(Destroy(l2));
    assert Run(l1, acts[2..]) == Run(l2, acts[3..]);
    assert Run(l0, acts[1..]) == Run(l1, acts[2..]);
  }

  /** The stack example without the detach: the layout is deleted by its
      scope and then a second time by the frame's destructor. */
  lemma StackExampleNotDetached()
    ensures var layout := 3;
            var end := Run(NewWidget(), [Install(Some(layout)), ScopeExit(layout),
                                         DestroyWidget]);
            && end.Some?
            && end.value.deleted[layout] == 2
            && !NoDoubleDelete(end.value)
  {
    var layout := 3;
    var l1 := SetLayout(NewWidget(), Some(layout)).ledger;
    var l2 := Delete(l1, layout);
    var acts := [Install(Some(layout)), ScopeExit(layout), DestroyWidget];
    assert Run(l2, acts[2..]) == Some(Destroy(l2));
    assert Run(l1, acts[1..]) == Run(l2, acts[2..]);
    assert Destroy(l2).deleted[layout] == 2;
  }
}
