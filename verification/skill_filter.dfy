/**
 The multi-select filter over the grid of skill cards: a set of active
 category keys that the filter buttons toggle and the reset button clears,
 the rule that decides which cards are displayed, and the page state the
 click handlers maintain (the key set, which buttons are styled as pressed,
 which cards are displayed).
 */
module SkillFilter {

  /** What `getAttribute` returns: no attribute, or the attribute's text. */
  datatype Attr = Missing | Present(text: string)

  /** The active category keys (`activeFilters`). */
  type Filters = set<string>

  /** The attribute is a usable key: present and not the empty string. */
  predicate IsKey(a: Attr) {
    a.Present? && a.text != ""
  }

  /** Adds `key` when it is absent and removes it when it is present. */
  function Toggle(f: Filters, key: string): (r: Filters)
    ensures key in r <==> key !in f
    ensures forall k :: k != key ==> (k in r <==> k in f)
  {
    if key in f then f - {key} else f + {key}
  }

  /** The key set after a click on a filter button whose `data-skill-filter` is `attr`. */
  function Click(f: Filters, attr: Attr): (r: Filters)
    ensures !IsKey(attr) ==> r == f
    ensures IsKey(attr) ==> (attr.text in r <==> attr.text !in f)
    ensures forall k :: k !in KeyOf(attr) ==> (k in r <==> k in f)
  {
    if IsKey(attr) then Toggle(f, attr.text) else f
  }

  /** The keys a button attribute can contribute: none, or its text. */
  function KeyOf(a: Attr): set<string> {
    if IsKey(a) then {a.text} else {}
  }

  /** A card of category `cat` is displayed under the key set `f`. */
  predicate Shows(f: Filters, cat: Attr) {
    |f| == 0 || (cat.Present? && cat.text in f)
  }

  /** The key set after a click on the reset button. */
  function Reset(f: Filters): (r: Filters)
    ensures forall cat :: Shows(r, cat)
  {
    {}
  }

  /** `applySkillFilters`: for each card, whether it is displayed. */
  function ApplyFilters(f: Filters, cards: seq<Attr>): (shown: seq<bool>)
    ensures |shown| == |cards|
    ensures |f| == 0 ==> forall i :: 0 <= i < |cards| ==> shown[i]
    ensures |f| > 0 ==> forall i :: 0 <= i < |cards| ==>
      (shown[i] <==> exists k :: k in f && cards[i] == Present(k))
  {
    seq(|cards|, i requires 0 <= i < |cards| => Shows(f, cards[i]))
  }

  /** Clicking the same button twice restores the key set. */
  lemma ClickTwiceRestores(f: Filters, attr: Attr)
    ensures Click(Click(f, attr), attr) == f
  {
  }

  /** Multi-select means "any of": with keys active on both sides, a card shown
      under the union is exactly a card shown under one side. */
  lemma ShowsUnion(f: Filters, g: Filters, cat: Attr)
    requires |f| > 0 && |g| > 0
    ensures Shows(f + g, cat) <==> Shows(f, cat) || Shows(g, cat)
  {
    assert f <= f + g;
    assert |f + g| > 0 by {
      var k :| k in f;
      assert k in f + g;
    }
  }

  /** A card without a category is displayed only while no key is active. */
  lemma UncategorisedShownOnlyUnfiltered(f: Filters)
    ensures Shows(f, Missing) <==> |f| == 0
  {
  }

  /** Clicks on a sequence of buttons, one after another. */
  function ClickAll(f: Filters, attrs: seq<Attr>): Filters
    decreases |attrs|
  {
    if |attrs| == 0 then f else ClickAll(Click(f, attrs[0]), attrs[1..])
  }

  /** How many of `attrs` are the usable key `k`. */
  function KeyCount(attrs: seq<Attr>, k: string): nat
    decreases |attrs|
  {
    if |attrs| == 0 then 0
    else (if k in KeyOf(attrs[0]) then 1 else 0) + KeyCount(attrs[1..], k)
  }

  /** A key is active after a run of clicks exactly when its activity was
      flipped an odd number of times: the order of clicks does not matter. */
  lemma {:induction false} ClickAllParity(f: Filters, attrs: seq<Attr>, k: string)
    ensures k in ClickAll(f, attrs) <==> ((k in f) != (KeyCount(attrs, k) % 2 == 1))
    decreases |attrs|
  {
    if |attrs| > 0 {
      ClickAllParity(Click(f, attrs[0]), attrs[1..], k);
    }
  }

  // ---------------------------------------------------------------------------
  // Page state maintained by the click handlers

  /** The buttons' `data-skill-filter`, the cards' `data-skill-category`, and
      whether the page has a reset button. */
  datatype Layout = Layout(buttons: seq<Attr>, cards: seq<Attr>, hasReset: bool)

  /** The key set, which buttons carry the pressed style, which cards are displayed. */
  datatype Page = Page(filters: Filters, pressed: seq<bool>, shown: seq<bool>)

  datatype Event = ButtonClick(index: nat) | ResetClick

  /** Every key that some button of the layout can contribute. */
  function ButtonKeys(l: Layout): set<string> {
    set i | 0 <= i < |l.buttons| && IsKey(l.buttons[i]) :: l.buttons[i].text
  }

  /** No two buttons share a usable key. */
  predicate UniqueKeys(l: Layout) {
    forall i, j :: 0 <= i < j < |l.buttons| && IsKey(l.buttons[i]) && IsKey(l.buttons[j]) ==>
      l.buttons[i].text != l.buttons[j].text
  }

  predicate ValidEvent(l: Layout, e: Event) {
    e.ButtonClick? ==> e.index < |l.buttons|
  }

  /** The page agrees with its key set: cards are displayed by `Shows`, a button
      is pressed exactly when its key is active, and only button keys are active. */
  predicate Consistent(l: Layout, p: Page) {
    && p.shown == ApplyFilters(p.filters, l.cards)
    && |p.pressed| == |l.buttons|
    && (forall i :: 0 <= i < |l.buttons| ==>
          (p.pressed[i] <==> IsKey(l.buttons[i]) && l.buttons[i].text in p.filters))
    && p.filters <= ButtonKeys(l)
  }

  /** The page as loaded: no key active; the markup is taken to display every
      card and to press no button, since the script styles nothing at load. */
  function Initial(l: Layout): (p: Page)
    ensures Consistent(l, p)
  {
    Page({}, seq(|l.buttons|, i => false), seq(|l.cards|, i => true))
  }

  /** One click, as the handlers react to it: a filter button toggles its key
      and restyles itself alone, the reset button clears every key and
      restyles every button; both then re-apply the filter to the cards. */
  function Step(l: Layout, p: Page, e: Event): (q: Page)
    requires ValidEvent(l, e) && |p.pressed| == |l.buttons|
    ensures |q.pressed| == |p.pressed|
    ensures e.ButtonClick? ==> q.filters == Click(p.filters, l.buttons[e.index])
    ensures e.ButtonClick? && !IsKey(l.buttons[e.index]) ==> q == p
    ensures e.ButtonClick? && IsKey(l.buttons[e.index]) ==>
      && q.pressed[e.index] == (l.buttons[e.index].text in q.filters)
      && (forall i :: 0 <= i < |q.pressed| && i != e.index ==> q.pressed[i] == p.pressed[i])
      && q.shown == ApplyFilters(q.filters, l.cards)
    ensures e.ResetClick? && l.hasReset ==>
      && q.filters == Reset(p.filters)
      && (forall i :: 0 <= i < |q.pressed| ==> !q.pressed[i])
      && q.shown == seq(|l.cards|, i => true)
    ensures e.ResetClick? && !l.hasReset ==> q == p
  {
    match e
    case ButtonClick(i) =>
      var key := l.buttons[i];
      if !IsKey(key) then p
      else
        var f := Click(p.filters, key);
        Page(f, p.pressed[i := key.text in f], ApplyFilters(f, l.cards))
    case ResetClick =>
      if !l.hasReset then p
      else
        var f := Reset(p.filters);
        Page(f, seq(|l.buttons|, i => false), ApplyFilters(f, l.cards))
  }

  /** With distinct button keys every click keeps the page consistent. */
  lemma StepPreservesConsistency(l: Layout, p: Page, e: Event)
    requires UniqueKeys(l) && ValidEvent(l, e) && Consistent(l, p)
    ensures Consistent(l, Step(l, p, e))
  {
    var q := Step(l, p, e);
    if e.ButtonClick? && IsKey(l.buttons[e.index]) {
      var i := e.index;
      var k := l.buttons[i].text;
      forall j | 0 <= j < |l.buttons|
        ensures q.pressed[j] <==> IsKey(l.buttons[j]) && l.buttons[j].text in q.filters
      {
        if j != i && IsKey(l.buttons[j]) {
          assert l.buttons[j].text != k;
        }
      }
      assert k in ButtonKeys(l);
    }
  }

  /** A run of valid clicks. */
  predicate ValidEvents(l: Layout, es: seq<Event>) {
    forall n :: 0 <= n < |es| ==> ValidEvent(l, es[n])
  }

  function Run(l: Layout, p: Page, es: seq<Event>): Page
    requires ValidEvents(l, es) && |p.pressed| == |l.buttons|
    decreases |es|
  {
    if |es| == 0 then p else Run(l, Step(l, p, es[0]), es[1..])
  }

  /** From page load on, whatever the clicks, the displayed cards are exactly
      those the active keys select and the pressed buttons are exactly those
      whose key is active. */
  lemma {:induction false} RunKeepsConsistency(l: Layout, p: Page, es: seq<Event>)
    requires UniqueKeys(l) && ValidEvents(l, es) && Consistent(l, p)
    ensures Consistent(l, Run(l, p, es))
    decreases |es|
  {
    if |es| > 0 {
      StepPreservesConsistency(l, p, es[0]);
      RunKeepsConsistency(l, Step(l, p, es[0]), es[1..]);
    }
  }

  /** The buttons a run of button clicks presses, in order. */
  function Clicked(l: Layout, es: seq<Event>): (attrs: seq<Attr>)
    requires forall n :: 0 <= n < |es| ==> es[n].ButtonClick? && es[n].index < |l.buttons|
    ensures |attrs| == |es|
  {
    seq(|es|, n requires 0 <= n < |es| => l.buttons[es[n].index])
  }

  /** Without a reset, the key set after a run of button clicks is the key set
      the clicked buttons toggle to, so `ClickAllParity` describes the page. */
  lemma {:induction false} RunFiltersAreClicks(l: Layout, p: Page, es: seq<Event>)
    requires forall n :: 0 <= n < |es| ==> es[n].ButtonClick? && es[n].index < |l.buttons|
    requires |p.pressed| == |l.buttons|
    ensures Run(l, p, es).filters == ClickAll(p.filters, Clicked(l, es))
    decreases |es|
  {
    if |es| > 0 {
      var q := Step(l, p, es[0]);
      RunFiltersAreClicks(l, q, es[1..]);
      assert Clicked(l, es)[1..] == Clicked(l, es[1..]);
    }
  }
}
