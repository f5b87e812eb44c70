/** The panel state of the AR scan page (scan/scan.js): which card is on
    screen, which of its facts is shown, the fact navigation buttons and the
    set of collected card ids. The panel as values first, then the page's
    mutable state object as a class whose handlers are proved against them. */
module ScanPanel {
  import opened Optional

  /** A scan card as loaded from the card data; a card without facts has an
      empty sequence, as `facts ?? []` makes it. */
  datatype Card = Card(id: string, name: string, category: string, facts: seq<string>)

  /** The panel's part of the scan page's state record, with the collected ids. */
  datatype PanelState = PanelState(activeCard: Option<Card>, factIndex: int, collected: set<string>)

  /** Which of the three panel buttons are disabled. */
  datatype Buttons = Buttons(prevDisabled: bool, nextDisabled: bool, collectDisabled: bool)

  const NoFactsText: string := "No facts found for this card yet."

  // ---------------------------------------------------------------- indices

  /** JavaScript's `%` for a positive divisor: the remainder of truncating
      division, which takes the sign of the dividend. */
  function JsRem(a: int, n: int): (r: int)
    requires n > 0
    ensures -n < r < n
    ensures (a - r) % n == 0
    ensures 0 <= a ==> 0 <= r
    ensures a <= 0 ==> r <= 0
  {
    if a >= 0 then
      var r := a % n;
      assert a - r == (a / n) * n;
      ModExact(a / n, n);
      r
    else
      var r := -((-a) % n);
      assert a - r == -((-a) / n) * n;
      ModExact(-((-a) / n), n);
      r
  }

  /** The next handler's index step: forward by one, wrapping at the end. */
  function NextIndex(i: int, n: int): (j: int)
    requires n > 0
    ensures 0 <= i < n ==> j == if i == n - 1 then 0 else i + 1
  {
    JsRem(i + 1, n)
  }

  /** The previous handler's index step: back by one, wrapping at the start. */
  function PrevIndex(i: int, n: int): (j: int)
    requires n > 0
    ensures 0 <= i < n ==> j == if i == 0 then n - 1 else i - 1
  {
    JsRem(i - 1 + n, n)
  }

  /** Both steps stay in range, and each undoes the other. */
  lemma StepsAreInverse(i: int, n: int)
    requires 0 <= i < n
    ensures 0 <= NextIndex(i, n) < n && 0 <= PrevIndex(i, n) < n
    ensures PrevIndex(NextIndex(i, n), n) == i
    ensures NextIndex(PrevIndex(i, n), n) == i
  {
  }

  /** The index after k presses of next. */
  function ForwardBy(i: int, n: int, k: nat): int
    requires n > 0
  {
    if k == 0 then i else NextIndex(ForwardBy(i, n, k - 1), n)
  }

  /** k presses of next advance the index by k modulo the number of facts;
      in particular n presses come back to the start. */
  lemma {:induction false} ForwardByIsModular(i: int, n: int, k: nat)
    requires 0 <= i < n
    ensures ForwardBy(i, n, k) == (i + k) % n
  {
    if k > 0 {
      ForwardByIsModular(i, n, k - 1);
      var p := ForwardBy(i, n, k - 1);
      assert 0 <= p < n;
      ModStep(i + k - 1, n);
    }
  }

  /** One more step of the remainder: (x + 1) % n follows x % n with a wrap at n - 1. */
  lemma ModStep(x: int, n: int)
    requires 0 <= x && n > 0
    ensures (x + 1) % n == if x % n == n - 1 then 0 else x % n + 1
  {
    var q, r := x / n, x % n;
    assert x == q * n + r;
    if r == n - 1 {
      assert x + 1 == (q + 1) * n;
      ModExact(q + 1, n);
    } else {
      assert x + 1 == q * n + (r + 1);
      ModSmall(q, n, r + 1);
    }
  }

  lemma ModExact(q: int, n: int)
    requires n > 0
    ensures (q * n) % n == 0
  {
    ModSmall(q, n, 0);
  }

  /** The remainder of q * n + r is r for 0 <= r < n. */
  lemma ModSmall(q: int, n: int, r: int)
    requires n > 0 && 0 <= r < n
    ensures (q * n + r) % n == r
  {
    var x := q * n + r;
    var d, r' := x / n - q, x % n;
    assert d * n == r - r' by {
      assert (x / n) * n + r' == x;
    }
    if d > 0 {
      MulAtLeast(d, n);
    } else if d < 0 {
      MulAtLeast(-d, n);
    }
  }

  lemma MulAtLeast(d: int, n: int)
    requires d >= 1 && n > 0
    ensures d * n >= n
  {
    assert d * n == (d - 1) * n + n;
  }

  // ---------------------------------------------------------------- the panel as values

  /** The facts of the active card; none without a card. */
  function FactsOf(active: Option<Card>): seq<string>
  {
    if active.Some? then active.value.facts else []
  }

  /** The panel invariant: the index is 0 when there is nothing to show, and
      otherwise a valid index into the active card's facts. */
  predicate IndexValid(s: PanelState)
  {
    if |FactsOf(s.activeCard)| == 0 then s.factIndex == 0 else 0 <= s.factIndex < |FactsOf(s.activeCard)|
  }

  /** The panel before any target is seen, with the ids collected earlier. */
  function InitialPanel(collected: set<string>): (s: PanelState)
    ensures IndexValid(s) && s.activeCard.None? && s.collected == collected
  {
    PanelState(None, 0, collected)
  }

  /** setButtonsState: navigation is disabled unless the card has at least
      two facts; collecting is disabled exactly when there is no card. */
  function ButtonsFor(active: Option<Card>): (b: Buttons)
    ensures b.prevDisabled == b.nextDisabled
    ensures b.nextDisabled <==> active.None? || |active.value.facts| <= 1
    ensures b.collectDisabled <==> active.None?
  {
    var hasCard := active.Some?;
    var factCount := |FactsOf(active)|;
    Buttons(!hasCard || factCount <= 1, !hasCard || factCount <= 1, !hasCard)
  }

  /** showCard: the card becomes active at its first fact. */
  function Show(s: PanelState, card: Card): (r: PanelState)
    ensures r.activeCard == Some(card) && r.factIndex == 0 && r.collected == s.collected
    ensures IndexValid(r)
  {
    s.(activeCard := Some(card), factIndex := 0)
  }

  /** clearCard: no card, index back to 0. */
  function Clear(s: PanelState): (r: PanelState)
    ensures r.activeCard.None? && r.factIndex == 0 && r.collected == s.collected
    ensures IndexValid(r)
  {
    s.(activeCard := None, factIndex := 0)
  }

  /** The next button's handler: nothing happens with fewer than two facts
      (or no card); otherwise the index moves forward with wrap-around. */
  function Next(s: PanelState): (r: PanelState)
    ensures r.activeCard == s.activeCard && r.collected == s.collected
    ensures IndexValid(s) ==> IndexValid(r)
    ensures |FactsOf(s.activeCard)| <= 1 ==> r == s
    ensures IndexValid(s) && |FactsOf(s.activeCard)| > 1 ==>
      r.factIndex == (s.factIndex + 1) % |FactsOf(s.activeCard)|
  {
    var n := |FactsOf(s.activeCard)|;
    if n <= 1 then s else s.(factIndex := NextIndex(s.factIndex, n))
  }

  /** The previous button's handler, the mirror image of Next. */
  function Prev(s: PanelState): (r: PanelState)
    ensures r.activeCard == s.activeCard && r.collected == s.collected
    ensures IndexValid(s) ==> IndexValid(r)
    ensures |FactsOf(s.activeCard)| <= 1 ==> r == s
    ensures IndexValid(s) && |FactsOf(s.activeCard)| > 1 ==>
      r.factIndex == (s.factIndex - 1 + |FactsOf(s.activeCard)|) % |FactsOf(s.activeCard)|
  {
    var n := |FactsOf(s.activeCard)|;
    if n <= 1 then s else s.(factIndex := PrevIndex(s.factIndex, n))
  }

  /** In a valid panel, a navigation button changes the index exactly when it
      is enabled; a disabled one (no card, or at most one fact) is a no-op. */
  lemma NavigationMatchesButtons(s: PanelState)
    requires IndexValid(s)
    ensures Next(s).factIndex != s.factIndex <==> !ButtonsFor(s.activeCard).nextDisabled
    ensures Prev(s).factIndex != s.factIndex <==> !ButtonsFor(s.activeCard).prevDisabled
    ensures ButtonsFor(s.activeCard).nextDisabled ==> Next(s) == s && Prev(s) == s
  {
  }

  /** Prev undoes Next and Next undoes Prev on a valid panel. */
  lemma PrevUndoesNext(s: PanelState)
    requires IndexValid(s)
    ensures Prev(Next(s)) == s
    ensures Next(Prev(s)) == s
  {
    var n := |FactsOf(s.activeCard)|;
    if n > 1 {
      StepsAreInverse(s.factIndex, n);
    }
  }

  /** The collect handler: without a card nothing is collected; otherwise the
      active card's id is added, and only that id. */
  function Collect(s: PanelState): (r: PanelState)
    ensures r.activeCard == s.activeCard && r.factIndex == s.factIndex
    ensures s.collected <= r.collected
    ensures s.activeCard.None? ==> r.collected == s.collected
    ensures s.activeCard.Some? ==> s.activeCard.value.id in r.collected
    ensures forall id :: id in r.collected && id !in s.collected ==> s.activeCard.Some? && id == s.activeCard.value.id
  {
    if s.activeCard.None? then s else s.(collected := s.collected + {s.activeCard.value.id})
  }

  /** The count the collect message reports grows by one exactly when the
      card was not collected before; collecting again changes nothing. */
  lemma CollectCounts(s: PanelState)
    requires s.activeCard.Some?
    ensures s.activeCard.value.id in s.collected ==> Collect(s) == s
    ensures s.activeCard.value.id !in s.collected ==> |Collect(s).collected| == |s.collected| + 1
    ensures Collect(Collect(s)) == Collect(s)
  {
  }

  /** onTargetLost: the panel is cleared only when the lost card is the
      active one (compared by id); losing another card changes nothing. */
  function TargetLost(s: PanelState, card: Card): (r: PanelState)
    ensures s.activeCard.Some? && s.activeCard.value.id == card.id ==> r == Clear(s)
    ensures !(s.activeCard.Some? && s.activeCard.value.id == card.id) ==> r == s
  {
    if s.activeCard.Some? && s.activeCard.value.id == card.id then Clear(s) else s
  }

  /** Losing a card that was just found clears the panel; losing a card with
      another id leaves it on the found card. */
  lemma FoundThenLost(s: PanelState, found: Card, lost: Card)
    ensures found.id == lost.id ==> TargetLost(Show(s, found), lost).activeCard.None?
    ensures found.id != lost.id ==> TargetLost(Show(s, found), lost) == Show(s, found)
  {
  }

  /** renderFact: the fact at the index, or the placeholder when the card
      has no facts (or there is no card). The read is always in range. */
  function FactText(s: PanelState): (text: string)
    requires IndexValid(s)
    ensures |FactsOf(s.activeCard)| == 0 ==> text == NoFactsText
    ensures |FactsOf(s.activeCard)| > 0 ==> text in FactsOf(s.activeCard)
  {
    var facts := FactsOf(s.activeCard);
    if |facts| == 0 then NoFactsText else facts[s.factIndex]
  }

  /** What the panel reacts to. */
  datatype PanelEvent = Found(card: Card) | Lost(card: Card) | PrevPressed | NextPressed | CollectPressed

  /** The handler an event is dispatched to. Each one keeps the index
      valid and loses no collected id. */
  function PanelStep(s: PanelState, e: PanelEvent): (r: PanelState)
    ensures IndexValid(s) ==> IndexValid(r)
    ensures s.collected <= r.collected
    ensures e.Found? ==> r.activeCard == Some(e.card) && r.factIndex == 0
    ensures !e.Found? && !e.Lost? ==> r.activeCard == s.activeCard
  {
    match e
    case Found(card) => Show(s, card)
    case Lost(card) => TargetLost(s, card)
    case PrevPressed => Prev(s)
    case NextPressed => Next(s)
    case CollectPressed => Collect(s)
  }

  /** The panel after a sequence of events, handled in order. */
  function Run(s: PanelState, events: seq<PanelEvent>): (r: PanelState)
    ensures events == [] ==> r == s
    ensures |events| > 0 && events[|events| - 1].Found? ==>
      r.activeCard == Some(events[|events| - 1].card) && r.factIndex == 0
    decreases |events|
  {
    if |events| == 0 then s else Run(PanelStep(s, events[0]), events[1..])
  }

  /** Handling `a` and then `b` is handling `a + b`: the panel has no state
      besides the record, so event sequences compose. */
  lemma {:induction false} RunAppend(s: PanelState, a: seq<PanelEvent>, b: seq<PanelEvent>)
    ensures Run(s, a + b) == Run(Run(s, a), b)
    decreases |a|
  {
    if |a| > 0 {
      assert (a + b)[0] == a[0];
      assert (a + b)[1..] == a[1..] + b;
      RunAppend(PanelStep(s, a[0]), a[1..], b);
    } else {
      assert a + b == b;
    }
  }

  /** Whatever events arrive, the index stays valid, so renderFact never
      reads outside the facts; collected ids are never lost. */
  lemma {:induction false} RunKeepsIndexValid(s: PanelState, events: seq<PanelEvent>)
    requires IndexValid(s)
    ensures IndexValid(Run(s, events))
    ensures s.collected <= Run(s, events).collected
    decreases |events|
  {
    if |events| > 0 {
      var t := PanelStep(s, events[0]);
      assert IndexValid(t) && s.collected <= t.collected;
      RunKeepsIndexValid(t, events[1..]);
    }
  }

  // ---------------------------------------------------------------- the page's state object

  class Panel {
    var activeCard: Option<Card>
    var factIndex: int
    var collected: set<string>

    function Snapshot(): PanelState
      reads this
    {
      PanelState(activeCard, factIndex, collected)
    }

    /** The page's initial state; `stored` is what loadCollectedSet returns. */
    constructor(stored: set<string>)
      ensures Snapshot() == InitialPanel(stored)
    {
      activeCard, factIndex, collected := None, 0, stored;
    }

    /** showCard's state updates. */
    method ShowCard(card: Card)
      modifies this
      ensures Snapshot() == Show(old(Snapshot()), card)
    {
      activeCard := Some(card);
      factIndex := 0;
    }

    /** clearCard's state updates. */
    method ClearCard()
      modifies this
      ensures Snapshot() == Clear(old(Snapshot()))
    {
      activeCard := None;
      factIndex := 0;
    }

    /** The previous button's click handler. */
    method OnPrev()
      modifies this
      ensures Snapshot() == Prev(old(Snapshot()))
    {
      var facts := if activeCard.Some? then activeCard.value.facts else [];
      if |facts| <= 1 {
        return;
      }
      factIndex := JsRem(factIndex - 1 + |facts|, |facts|);
    }

    /** The next button's click handler. */
    method OnNext()
      modifies this
      ensures Snapshot() == Next(old(Snapshot()))
    {
      var facts := if activeCard.Some? then activeCard.value.facts else [];
      if |facts| <= 1 {
        return;
      }
      factIndex := JsRem(factIndex + 1, |facts|);
    }

    /** The collect button's click handler; `total` is the count the status
      message reports, absent when there is no card. */
    method OnCollect() returns (total: Option<nat>)
      modifies this
      ensures Snapshot() == Collect(old(Snapshot()))
      ensures old(activeCard).None? <==> total.None?
      ensures total.Some? ==> total.value == |collected|
    {
      if activeCard.None? {
        return None;
      }
      collected := collected + {activeCard.value.id};
      total := Some(|collected|);
    }

    /** onTargetFound's panel update. */
    method OnTargetFound(card: Card)
      modifies this
      ensures Snapshot() == Show(old(Snapshot()), card)
    {
      ShowCard(card);
    }

    /** onTargetLost's panel update. */
    method OnTargetLost(card: Card)
      modifies this
      ensures Snapshot() == TargetLost(old(Snapshot()), card)
    {
      if activeCard.Some? && activeCard.value.id == card.id {
        ClearCard();
      }
    }

    /** renderFact's text. */
    method RenderFact() returns (text: string)
      requires IndexValid(Snapshot())
      ensures text == FactText(Snapshot())
    {
      var facts := if activeCard.Some? then activeCard.value.facts else [];
      if |facts| == 0 {
        return NoFactsText;
      }
      text := facts[factIndex];
    }
  }
}
