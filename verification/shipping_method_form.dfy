/**
 * The state machine of `ShippingMethodForm`.
 *
 * The form keeps three pieces of local state: the selected method (an
 * arbitrary string, or null), the shipping cost, and a "calculating" flag.
 * Whenever the selection changes, an effect runs: a falsy selection resets
 * the cost to 0; any other selection raises the flag and schedules a
 * deferred computation that captures the selection at that moment. When a
 * deferred computation fires it reads the region, writes the quoted cost
 * and lowers the flag. Nothing cancels a scheduled computation, so several
 * may be pending at once and they may fire in any order: the model keeps
 * them as a sequence of captured selections and lets any one of them fire.
 */
module ShippingMethodForm {
  import opened Wrappers
  import opened JsValues
  import opened ShippingCost

  /** The form's local state plus the computations scheduled and not yet fired (oldest first). */
  datatype State = State(selected: Option<string>, cost: int, calculating: bool, pending: seq<string>)

  /** Nothing selected, cost 0, not calculating, nothing scheduled. */
  const Initial := State(None, 0, false, [])

  /** The position of the oldest occurrence of `x` in `xs`. */
  function FirstIndex(xs: seq<string>, x: string): (i: nat)
    requires x in xs
    ensures i < |xs| && xs[i] == x && x !in xs[..i]
  {
    if xs[0] == x then 0
    else
      assert x in xs[1..] by { assert xs == [xs[0]] + xs[1..]; }
      var j := FirstIndex(xs[1..], x);
      assert xs[..j + 1] == [xs[0]] + xs[1..][..j];
      j + 1
  }

  /** Drops the oldest pending computation that captured `x`. */
  function RemoveFirst(xs: seq<string>, x: string): (r: seq<string>)
    requires x in xs
    ensures |r| == |xs| - 1
    ensures multiset(r) == multiset(xs) - multiset{x}
    ensures xs[0] == x ==> r == xs[1..]
  {
    assert xs == [xs[0]] + xs[1..];
    if xs[0] == x then xs[1..]
    else [xs[0]] + RemoveFirst(xs[1..], x)
  }

  /** What `RemoveFirst` drops is exactly the oldest occurrence; the rest keep their order. */
  lemma {:induction false} RemoveFirstDropsOldest(xs: seq<string>, x: string)
    requires x in xs
    ensures RemoveFirst(xs, x) == xs[..FirstIndex(xs, x)] + xs[FirstIndex(xs, x) + 1..]
  {
    if xs[0] != x {
      SkipHead(xs, x);
      RemoveFirstDropsOldest(xs[1..], x);
      ShiftGap(xs, FirstIndex(xs[1..], x));
    }
  }

  /** When the head is not `x`, both `FirstIndex` and `RemoveFirst` defer to the tail. */
  lemma SkipHead(xs: seq<string>, x: string)
    requires x in xs && xs[0] != x
    ensures x in xs[1..]
    ensures FirstIndex(xs, x) == FirstIndex(xs[1..], x) + 1
    ensures RemoveFirst(xs, x) == [xs[0]] + RemoveFirst(xs[1..], x)
  {
    assert xs == [xs[0]] + xs[1..];
  }

  /** Cutting position `i` out of the tail, then restoring the head, cuts position `i + 1` out of the whole. */
  lemma ShiftGap<T>(xs: seq<T>, i: nat)
    requires i + 1 < |xs|
    ensures [xs[0]] + (xs[1..][..i] + xs[1..][i + 1..]) == xs[..i + 1] + xs[i + 2..]
  {
    assert xs[..i + 1] == [xs[0]] + xs[1..][..i];
    assert xs[i + 2..] == xs[1..][i + 1..];
  }

  /** The effect body, run after a render in which the selection changed. */
  function Effect(s: State): (t: State)
    ensures t.selected == s.selected
    ensures !Truthy(s.selected) ==> t.cost == 0 && t.calculating == s.calculating && t.pending == s.pending
    ensures Truthy(s.selected) ==> t.cost == s.cost && t.calculating && t.pending == s.pending + [s.selected.value]
  {
    if !Truthy(s.selected) then s.(cost := 0)
    else s.(calculating := true, pending := s.pending + [s.selected.value])
  }

  /** Storing a selection re-runs the effect only if the value actually changed. */
  function Reselect(s: State, selection: Option<string>): (t: State)
    ensures t.selected == selection
    ensures selection == s.selected ==> t == s
    ensures selection != s.selected && Truthy(selection) ==>
      t.calculating && t.cost == s.cost && t.pending == s.pending + [selection.value]
    ensures selection != s.selected && !Truthy(selection) ==>
      t.cost == 0 && t.calculating == s.calculating && t.pending == s.pending
  {
    if selection == s.selected then s else Effect(s.(selected := selection))
  }

  /** The state after a selection, and the value passed to the caller's `setShippingMethod`. */
  datatype Change = Change(next: State, reported: string)

  /**
   * The user picks a radio value. The caller hears about it at once, with
   * the same value, whatever the state of the cost computation.
   */
  function HandleMethodChange(s: State, value: string): (c: Change)
    ensures c.reported == value
    ensures c.next.selected == Some(value)
    ensures s.selected == Some(value) ==> c.next == s
    ensures s.selected != Some(value) && value != "" ==>
      c.next.calculating && c.next.cost == s.cost && c.next.pending == s.pending + [value]
    ensures s.selected != Some(value) && value == "" ==>
      c.next.cost == 0 && c.next.calculating == s.calculating && c.next.pending == s.pending
  {
    Change(Reselect(s, Some(value)), value)
  }

  /** The selection becomes null: the cost drops to 0, nothing is scheduled, the flag is left alone. */
  function ClearSelection(s: State): (t: State)
    ensures t.selected.None? && t.pending == s.pending && t.calculating == s.calculating
    ensures s.selected.Some? ==> t.cost == 0
    ensures s.selected.None? ==> t == s
  {
    Reselect(s, None)
  }

  /**
   * A pending computation that captured `captured` fires, reading the region
   * `stored` at this moment. The selection is not consulted.
   */
  function FireTimer(s: State, captured: string, stored: Option<string>): (t: State)
    requires captured in s.pending
    ensures t.selected == s.selected
    ensures !t.calculating
    ensures |t.pending| == |s.pending| - 1
    ensures multiset(t.pending) == multiset(s.pending) - multiset{captured}
    ensures s.pending[0] == captured ==> t.pending == s.pending[1..]
    ensures ParseMethod(captured).Some? ==>
      t.cost == Cost(TierOf(EffectiveRegion(stored)), ParseMethod(captured).value)
    ensures ParseMethod(captured).None? ==> t.cost == s.cost
  {
    s.(cost := CostAtFire(captured, stored, s.cost), calculating := false, pending := RemoveFirst(s.pending, captured))
  }

  // ---------------------------------------------------------------------------
  // Runs of events
  // ---------------------------------------------------------------------------

  datatype Event = Select(value: string) | SetNull | TimerFire(captured: string, region: Option<string>)

  /** Only a scheduled computation can fire. */
  predicate Enabled(s: State, e: Event) {
    e.TimerFire? ==> e.captured in s.pending
  }

  function Step(s: State, e: Event): State
    requires Enabled(s, e)
  {
    match e
    case Select(v) => HandleMethodChange(s, v).next
    case SetNull => ClearSelection(s)
    case TimerFire(captured, stored) => FireTimer(s, captured, stored)
  }

  /** The state after the events in order, or None if one of them names a computation that is not pending. */
  function Run(s: State, es: seq<Event>): Option<State>
    decreases |es|
  {
    if |es| == 0 then Some(s)
    else if !Enabled(s, es[0]) then None
    else Run(Step(s, es[0]), es[1..])
  }

  /**
   * What holds in every state the form can reach: the flag is only up while
   * something is pending, no computation captured an empty selection, and
   * the cost is 0 or an amount from the table.
   */
  ghost predicate Consistent(s: State) {
    && (s.calculating ==> |s.pending| > 0)
    && "" !in s.pending
    && (s.cost == 0 || IsQuote(s.cost))
  }

  lemma StepPreservesConsistent(s: State, e: Event)
    requires Consistent(s) && Enabled(s, e)
    ensures Consistent(Step(s, e))
  {
    match e
    case Select(v) =>
    case SetNull =>
    case TimerFire(captured, stored) =>
      var t := FireTimer(s, captured, stored);
      assert multiset(t.pending) <= multiset(s.pending);
      assert "" !in multiset(t.pending);
      match ParseMethod(captured)
      case Some(m) =>
        assert Cost(TierOf(EffectiveRegion(stored)), m) == t.cost;
      case None =>
  }

  lemma {:induction false} RunPreservesConsistent(s: State, es: seq<Event>, t: State)
    requires Consistent(s) && Run(s, es) == Some(t)
    ensures Consistent(t)
    decreases |es|
  {
    if |es| == 0 {
    } else {
      StepPreservesConsistent(s, es[0]);
      RunPreservesConsistent(Step(s, es[0]), es[1..], t);
    }
  }

  /** Every reachable state is consistent, whatever order the computations fire in. */
  lemma ReachableIsConsistent(es: seq<Event>, t: State)
    requires Run(Initial, es) == Some(t)
    ensures Consistent(t)
    ensures t.cost >= 0
  {
    RunPreservesConsistent(Initial, es, t);
    if t.cost != 0 {
      var tier: Tier, m: Method :| Cost(tier, m) == t.cost;
    }
  }

  // ---------------------------------------------------------------------------
  // What the form shows
  // ---------------------------------------------------------------------------

  datatype CostPanel = Hidden | Calculating | ShowsCost(reais: int)

  /** The cost panel appears only under a (truthy) selection. */
  function Panel(s: State): (p: CostPanel)
    ensures p.Hidden? <==> !Truthy(s.selected)
    ensures p.Calculating? <==> Truthy(s.selected) && s.calculating
    ensures p.ShowsCost? ==> p.reais == s.cost
  {
    if !Truthy(s.selected) then Hidden
    else if s.calculating then Calculating
    else ShowsCost(s.cost)
  }

  /** The radio group's value: the selection, or "" for none. */
  function RadioValue(s: State): string {
    Or(s.selected, "")
  }

  /** An option card is highlighted when the selection is exactly its value. */
  predicate Highlighted(s: State, m: Method) {
    s.selected == Some(MethodValue(m))
  }

  /** The highlighted card is the one the radio group marks, and at most one card is highlighted. */
  lemma HighlightFollowsRadio(s: State, a: Method, b: Method)
    ensures Highlighted(s, a) <==> RadioValue(s) == MethodValue(a)
    ensures Highlighted(s, a) && Highlighted(s, b) ==> a == b
  {
    MethodValueInjective(a, b);
  }

  const ShippingMethodErrorKey := "shippingMethod"

  /** The validation message shown under the options, taken verbatim from the caller's error map. */
  function ValidationMessage(formErrors: map<string, string>): (msg: Option<string>)
    ensures msg.Some? <==> ShippingMethodErrorKey in formErrors && formErrors[ShippingMethodErrorKey] != ""
    ensures msg.Some? ==> msg.value == formErrors[ShippingMethodErrorKey]
  {
    if ShippingMethodErrorKey in formErrors && formErrors[ShippingMethodErrorKey] != ""
    then Some(formErrors[ShippingMethodErrorKey])
    else None
  }

  // ---------------------------------------------------------------------------
  // Properties of the flow
  // ---------------------------------------------------------------------------

  /** The mount-time run of the effect, with nothing selected, leaves the initial state as it is. */
  lemma MountKeepsInitial()
    ensures Effect(Initial) == Initial
    ensures Panel(Initial) == Hidden
  {
  }

  /**
   * Picking a new known method shows "Calculando..."; when that pick's own
   * computation fires, the panel shows the table's price for the method and
   * the region read at that moment.
   */
  lemma SelectThenFireShowsQuote(s: State, m: Method, stored: Option<string>)
    requires s.selected != Some(MethodValue(m))
    ensures Panel(HandleMethodChange(s, MethodValue(m)).next) == Calculating
    ensures MethodValue(m) in HandleMethodChange(s, MethodValue(m)).next.pending
    ensures Panel(FireTimer(HandleMethodChange(s, MethodValue(m)).next, MethodValue(m), stored))
         == ShowsCost(Cost(TierOf(EffectiveRegion(stored)), m))
  {
    ParseMethodValue(m);
  }

  /**
   * A value outside the three methods still raises the flag and schedules a
   * computation; when it fires the cost stays what it was and the flag drops.
   */
  lemma UnknownMethodKeepsCost(s: State, value: string, stored: Option<string>)
    requires ParseMethod(value).None? && value != "" && s.selected != Some(value)
    ensures Panel(HandleMethodChange(s, value).next) == Calculating
    ensures value in HandleMethodChange(s, value).next.pending
    ensures Panel(FireTimer(HandleMethodChange(s, value).next, value, stored)) == ShowsCost(s.cost)
  {
  }

  /** Sedex in SP ends at 20 reais. */
  lemma SedexInSp()
    ensures Run(Initial, [Select("sedex"), TimerFire("sedex", Some("SP"))]) == Some(State(Some("sedex"), 20, false, []))
  {
  }

  /** Transportadora in MG ends at 40 reais. */
  lemma TransportadoraInMg()
    ensures Run(Initial, [Select("transportadora"), TimerFire("transportadora", Some("MG"))])
         == Some(State(Some("transportadora"), 40, false, []))
  {
  }

  /** Clearing the selection after a pick brings the cost back to 0 and hides the panel. */
  lemma NullSelectionCostsNothing()
    ensures Run(Initial, [Select("pac"), TimerFire("pac", None), SetNull])
         == Some(State(None, 0, false, []))
    ensures Panel(State(None, 0, false, [])) == Hidden
  {
  }

  /**
   * With two computations pending, the cost left behind depends on which
   * fires last: the order is not fixed by the form.
   */
  lemma FiringOrderDecidesCost()
    ensures Run(Initial, [Select("sedex"), Select("pac")]) == Some(State(Some("pac"), 0, true, ["sedex", "pac"]))
    ensures FireTimer(FireTimer(State(Some("pac"), 0, true, ["sedex", "pac"]), "sedex", None), "pac", None)
         == State(Some("pac"), 15, false, [])
    ensures FireTimer(FireTimer(State(Some("pac"), 0, true, ["sedex", "pac"]), "pac", None), "sedex", None)
         == State(Some("pac"), 20, false, [])
  {
    var one := State(Some("sedex"), 0, true, ["sedex"]);
    assert Step(Initial, Select("sedex")) == one;
    assert one.pending + ["pac"] == ["sedex", "pac"];
    assert [Select("sedex"), Select("pac")][1..] == [Select("pac")];
  }

  /**
   * The stale quote: after everything has fired, the panel can show the
   * price of a method that is no longer selected (20 is the sedex price;
   * pac in SP costs 15).
   */
  lemma StaleQuoteSurvivesQuiescence()
    ensures Run(Initial, [Select("sedex"), Select("pac")]) == Some(State(Some("pac"), 0, true, ["sedex", "pac"]))
    ensures var t := FireTimer(FireTimer(State(Some("pac"), 0, true, ["sedex", "pac"]), "pac", None), "sedex", None);
      && t.pending == [] && !t.calculating
      && t.selected == Some(MethodValue(Pac))
      && Panel(t) == ShowsCost(Cost(TierOf(EffectiveRegion(None)), Sedex))
      && Cost(TierOf(EffectiveRegion(None)), Sedex) != Cost(TierOf(EffectiveRegion(None)), Pac)
  {
    FiringOrderDecidesCost();
  }

  /**
   * The same stale quote as a run of events: from sedex and pac both
   * pending, firing pac's computation and then sedex's settles on the sedex
   * price with pac still selected.
   */
  lemma StaleQuoteRunSettles()
    ensures Run(State(Some("pac"), 0, true, ["sedex", "pac"]), [TimerFire("pac", None), TimerFire("sedex", None)])
         == Some(State(Some("pac"), 20, false, []))
  {
    var both := State(Some("pac"), 0, true, ["sedex", "pac"]);
    var afterPac := FireTimer(both, "pac", None);
    assert afterPac == State(Some("pac"), 15, false, ["sedex"]);
    assert [TimerFire("pac", None), TimerFire("sedex", None)][1..] == [TimerFire("sedex", None)];
    assert Run(afterPac, [TimerFire("sedex", None)]) == Run(FireTimer(afterPac, "sedex", None), []);
  }

  /** Fires every pending computation oldest first, the region staying `stored`. */
  function DrainInOrder(s: State, stored: Option<string>): (t: State)
    decreases |s.pending|
    ensures t.pending == [] && t.selected == s.selected
    ensures |s.pending| > 0 ==> !t.calculating
    ensures |s.pending| == 0 ==> t == s
  {
    if |s.pending| == 0 then s
    else DrainInOrder(FireTimer(s, s.pending[0], stored), stored)
  }

  /** Fired oldest first, the computations leave the price of the newest one. */
  lemma {:induction false} NewestWinsWhenFiredInOrder(s: State, stored: Option<string>, m: Method)
    requires |s.pending| > 0 && s.pending[|s.pending| - 1] == MethodValue(m)
    ensures DrainInOrder(s, stored).cost == Cost(TierOf(EffectiveRegion(stored)), m)
    decreases |s.pending|
  {
    var s' := FireTimer(s, s.pending[0], stored);
    assert s'.pending == s.pending[1..];
    if |s.pending| == 1 {
      ParseMethodValue(m);
    } else {
      NewestWinsWhenFiredInOrder(s', stored, m);
    }
  }

  /**
   * If the computations fire in the order they were scheduled and the region
   * does not change, a new pick of a known method ends with the panel showing
   * that method's price.
   */
  lemma PickSettlesWhenFiredInOrder(s: State, m: Method, stored: Option<string>)
    requires s.selected != Some(MethodValue(m))
    ensures Panel(DrainInOrder(HandleMethodChange(s, MethodValue(m)).next, stored))
         == ShowsCost(Cost(TierOf(EffectiveRegion(stored)), m))
  {
    var s1 := HandleMethodChange(s, MethodValue(m)).next;
    NewestWinsWhenFiredInOrder(s1, stored, m);
  }
}
