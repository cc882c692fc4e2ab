/**
 * The one-pass aggregation of transform_data (src/etl.py), stated declaratively:
 * events are grouped by key in order of first appearance, and each
 * accumulator is a function of its group.
 */
module Aggregate {
  import opened Wrappers
  import opened Dates
  import opened Reconstruct

  // ---------------------------------------------------------------------
  // Keys
  // ---------------------------------------------------------------------

  /**
   * The traffic key. The source builds it as the string
   * date + "|" + source + "|" + medium, which is not injective once a source or
   * medium contains '|'; here it is the triple itself.
   */
  type ChannelKey = (Date, string, string)

  /**
   * The product key. The source builds it as date + "|" + item_id; the date text
   * has a fixed width without '|', so that string is injective and the pair is faithful.
   */
  type ItemKey = (Date, string)

  function DayOf(e: Event): Option<Date> { Some(e.date) }
  function ChannelOf(e: Event): Option<ChannelKey> { Some((e.date, e.source, e.medium)) }
  function ItemOf(e: Event): Option<ItemKey> {
    if e.itemId.Some? then Some((e.date, e.itemId.value)) else None
  }

  // ---------------------------------------------------------------------
  // Groups and first-seen key order
  // ---------------------------------------------------------------------

  /** The events whose key is `k`, in order. */
  function Group<K(==)>(evs: seq<Event>, key: Event -> Option<K>, k: K): (g: seq<Event>)
    ensures |g| <= |evs|
    ensures forall i :: 0 <= i < |g| ==> key(g[i]) == Some(k)
  {
    if evs == [] then []
    else
      var last := evs[|evs| - 1];
      Group(evs[..|evs| - 1], key, k) + (if key(last) == Some(k) then [last] else [])
  }

  /** The keys of `evs` in order of first appearance: the insertion order of a Python dict. */
  function FirstSeen<K(==)>(evs: seq<Event>, key: Event -> Option<K>): (ks: seq<K>)
    ensures forall i, j :: 0 <= i < j < |ks| ==> ks[i] != ks[j]
  {
    if evs == [] then []
    else
      var ks := FirstSeen(evs[..|evs| - 1], key);
      var last := evs[|evs| - 1];
      if key(last).Some? && key(last).value !in ks then ks + [key(last).value] else ks
  }

  /** Every event lands in the group of its own key and in no other. */
  lemma {:induction false} GroupMembers<K>(evs: seq<Event>, key: Event -> Option<K>, k: K)
    ensures forall e :: e in Group(evs, key, k) <==> e in evs && key(e) == Some(k)
    decreases |evs|
  {
    if evs != [] {
      var init := evs[..|evs| - 1];
      GroupMembers(init, key, k);
      assert evs == init + [evs[|evs| - 1]];
    }
  }

  /** A key is listed exactly when some event has it, and then its group is non-empty. */
  lemma {:induction false} FirstSeenMembers<K>(evs: seq<Event>, key: Event -> Option<K>, k: K)
    ensures k in FirstSeen(evs, key) <==> exists i :: 0 <= i < |evs| && key(evs[i]) == Some(k)
    ensures k in FirstSeen(evs, key) <==> Group(evs, key, k) != []
    decreases |evs|
  {
    if evs != [] {
      var init := evs[..|evs| - 1];
      var last := evs[|evs| - 1];
      FirstSeenMembers(init, key, k);
      assert Group(evs, key, k) == Group(init, key, k) + (if key(last) == Some(k) then [last] else []);
      if exists i :: 0 <= i < |init| && key(init[i]) == Some(k) {
        var i :| 0 <= i < |init| && key(init[i]) == Some(k);
        assert evs[i] == init[i];
      }
      if exists i :: 0 <= i < |evs| && key(evs[i]) == Some(k) {
        var i :| 0 <= i < |evs| && key(evs[i]) == Some(k);
        if i < |init| {
          assert init[i] == evs[i];
        }
      }
    }
  }

  // ---------------------------------------------------------------------
  // Counters, sums and distinct sets over a group
  // ---------------------------------------------------------------------

  /** Number of events whose name is exactly `name`. */
  function CountNamed(es: seq<Event>, name: string): nat {
    if es == [] then 0
    else CountNamed(es[..|es| - 1], name) + (if es[|es| - 1].name == name then 1 else 0)
  }

  /** Counters match names exactly: the count is the number of positions carrying that name. */
  lemma {:induction false} CountNamedIsCardinality(es: seq<Event>, name: string)
    ensures CountNamed(es, name) == |set i | 0 <= i < |es| && es[i].name == name|
    decreases |es|
  {
    if es != [] {
      var n := |es| - 1;
      var init := es[..n];
      CountNamedIsCardinality(init, name);
      var before := set i | 0 <= i < n && init[i].name == name;
      var now := set i | 0 <= i < |es| && es[i].name == name;
      assert forall i :: 0 <= i < n ==> init[i] == es[i];
      assert forall i :: i in now <==> i in before || (i == n && es[n].name == name);
      if es[n].name == name {
        assert n !in before;
        assert now == before + {n};
      } else {
        assert now == before;
      }
    }
  }

  /** The sum of `w` over the events. */
  function Total(es: seq<Event>, w: Event -> real): real {
    if es == [] then 0.0 else Total(es[..|es| - 1], w) + w(es[|es| - 1])
  }

  /** The distinct present values of `f` over the events. */
  function Image(es: seq<Event>, f: Event -> Option<string>): set<string> {
    if es == [] then {}
    else
      var v := f(es[|es| - 1]);
      Image(es[..|es| - 1], f) + (if v.Some? then {v.value} else {})
  }

  lemma {:induction false} ImageMembers(es: seq<Event>, f: Event -> Option<string>, x: string)
    ensures x in Image(es, f) <==> exists i :: 0 <= i < |es| && f(es[i]) == Some(x)
    decreases |es|
  {
    if es != [] {
      var init := es[..|es| - 1];
      ImageMembers(init, f, x);
      if x in Image(init, f) {
        var i :| 0 <= i < |init| && f(init[i]) == Some(x);
        assert es[i] == init[i];
      }
      if exists i :: 0 <= i < |es| && f(es[i]) == Some(x) {
        var i :| 0 <= i < |es| && f(es[i]) == Some(x);
        if i < |init| {
          assert init[i] == es[i];
        }
      }
    }
  }

  /** Distinct counting: a value repeated over every event of a non-empty group is counted once. */
  lemma ImageOfRepeated(es: seq<Event>, f: Event -> Option<string>, x: string)
    requires es != [] && forall i :: 0 <= i < |es| ==> f(es[i]) == Some(x)
    ensures Image(es, f) == {x}
  {
    forall y
      ensures y in Image(es, f) <==> y == x
    {
      ImageMembers(es, f, y);
    }
  }

  function EventSession(e: Event): Option<string> { Some(e.session) }
  function EventUser(e: Event): Option<string> { Some(e.user) }
  function EventTransaction(e: Event): Option<string> { e.transactionId }

  /** Purchase revenue as the daily and traffic sums see it: added only when present and non-zero. */
  function PaidRevenue(e: Event): real {
    if e.transactionRevenue.Some? && e.transactionRevenue.value != 0.0 then e.transactionRevenue.value else 0.0
  }

  /** Item revenue as the product sum sees it: on purchase events, when present and non-zero. */
  function ItemPaidRevenue(e: Event): real {
    if e.name == "purchase" && e.itemRevenue.Some? && e.itemRevenue.value != 0.0 then e.itemRevenue.value else 0.0
  }

  /** Quantity sold over the purchase events (the quantity defaults to 1 when the cell is absent). */
  function QuantitySold(es: seq<Event>): int {
    if es == [] then 0
    else
      var last := es[|es| - 1];
      QuantitySold(es[..|es| - 1]) + (if last.name == "purchase" then last.itemQuantity else 0)
  }

  // ---------------------------------------------------------------------
  // The three accumulators
  // ---------------------------------------------------------------------

  datatype DailyAcc = DailyAcc(
    sessions: set<string>, users: set<string>, pageViews: nat, revenue: real,
    transactions: set<string>, purchases: nat, viewItems: nat, addCarts: nat, checkouts: nat)

  datatype TrafficAcc = TrafficAcc(
    sessions: set<string>, users: set<string>, pageViews: nat, transactions: nat, revenue: real)

  datatype ProductAcc = ProductAcc(
    itemName: Option<string>, itemCategory: Option<string>,
    views: nat, addToCarts: nat, purchases: nat, revenue: real, quantitySold: int)

  /** The accumulator a new date key starts from. */
  const NewDaily := DailyAcc({}, {}, 0, 0.0, {}, 0, 0, 0, 0)

  /** The accumulator a new channel key starts from. */
  const NewTraffic := TrafficAcc({}, {}, 0, 0, 0.0)

  /** The accumulator a new item key starts from: name and category come from the creating event. */
  function NewProduct(e: Event): ProductAcc {
    ProductAcc(e.itemName, e.itemCategory, 0, 0, 0, 0.0, 0)
  }

  function Tick(e: Event, name: string): nat { if e.name == name then 1 else 0 }

  /** The daily loop body for one event. */
  function DailyStep(a: DailyAcc, e: Event): DailyAcc {
    DailyAcc(
      sessions := a.sessions + {e.session},
      users := a.users + {e.user},
      pageViews := a.pageViews + Tick(e, "page_view"),
      revenue := a.revenue + PaidRevenue(e),
      transactions := if e.transactionId.Some? then a.transactions + {e.transactionId.value} else a.transactions,
      purchases := a.purchases + Tick(e, "purchase"),
      viewItems := a.viewItems + Tick(e, "view_item"),
      addCarts := a.addCarts + Tick(e, "add_to_cart"),
      checkouts := a.checkouts + Tick(e, "begin_checkout"))
  }

  /** The traffic loop body for one event. */
  function TrafficStep(a: TrafficAcc, e: Event): TrafficAcc {
    TrafficAcc(
      sessions := a.sessions + {e.session},
      users := a.users + {e.user},
      pageViews := a.pageViews + Tick(e, "page_view"),
      transactions := a.transactions + Tick(e, "purchase"),
      revenue := a.revenue + PaidRevenue(e))
  }

  /** The product loop body for one event. */
  function ProductStep(a: ProductAcc, e: Event): ProductAcc {
    a.(views := a.views + Tick(e, "view_item"),
       addToCarts := a.addToCarts + Tick(e, "add_to_cart"),
       purchases := a.purchases + Tick(e, "purchase"),
       revenue := a.revenue + ItemPaidRevenue(e),
       quantitySold := a.quantitySold + (if e.name == "purchase" then e.itemQuantity else 0))
  }

  /** What a date's accumulator holds once it has seen the events `es` of that date. */
  function DailyOf(es: seq<Event>): DailyAcc {
    DailyAcc(
      Image(es, EventSession), Image(es, EventUser), CountNamed(es, "page_view"),
      Total(es, PaidRevenue), Image(es, EventTransaction), CountNamed(es, "purchase"),
      CountNamed(es, "view_item"), CountNamed(es, "add_to_cart"), CountNamed(es, "begin_checkout"))
  }

  /** What a channel's accumulator holds once it has seen the events `es` of that channel. */
  function TrafficOf(es: seq<Event>): TrafficAcc {
    TrafficAcc(
      Image(es, EventSession), Image(es, EventUser), CountNamed(es, "page_view"),
      CountNamed(es, "purchase"), Total(es, PaidRevenue))
  }

  /**
   * What an item's accumulator holds once it has seen the events `es` of that
   * item: name and category are those of the first event.
   */
  function ProductOf(es: seq<Event>): ProductAcc {
    ProductAcc(
      if es == [] then None else es[0].itemName,
      if es == [] then None else es[0].itemCategory,
      CountNamed(es, "view_item"), CountNamed(es, "add_to_cart"), CountNamed(es, "purchase"),
      Total(es, ItemPaidRevenue), QuantitySold(es))
  }

  /** Running the daily loop body over one more event gives the accumulator of the longer group. */
  lemma DailyOfStep(es: seq<Event>, e: Event)
    ensures DailyOf(es + [e]) == DailyStep(DailyOf(es), e)
    ensures DailyOf([]) == NewDaily
  {
    assert (es + [e])[..|es|] == es;
  }

  lemma TrafficOfStep(es: seq<Event>, e: Event)
    ensures TrafficOf(es + [e]) == TrafficStep(TrafficOf(es), e)
    ensures TrafficOf([]) == NewTraffic
  {
    assert (es + [e])[..|es|] == es;
  }

  /** A new item key starts from its creating event; later events only move the counters. */
  lemma ProductOfStep(es: seq<Event>, e: Event)
    ensures es == [] ==> ProductOf([e]) == ProductStep(NewProduct(e), e)
    ensures es != [] ==> ProductOf(es + [e]) == ProductStep(ProductOf(es), e)
  {
    assert (es + [e])[..|es|] == es;
    if es == [] {
      assert [e][..0] == [];
      assert [e] == es + [e];
      assert ProductOf(es) == ProductAcc(None, None, 0, 0, 0, 0.0, 0);
    }
  }

  /** Names outside the counted vocabulary leave every counter unchanged. */
  lemma OtherNamesCountNothing(a: DailyAcc, t: TrafficAcc, p: ProductAcc, e: Event)
    requires e.name !in ["page_view", "purchase", "view_item", "add_to_cart", "begin_checkout"]
    ensures var a' := DailyStep(a, e);
      a'.pageViews == a.pageViews && a'.purchases == a.purchases && a'.viewItems == a.viewItems
      && a'.addCarts == a.addCarts && a'.checkouts == a.checkouts
    ensures var t' := TrafficStep(t, e); t'.pageViews == t.pageViews && t'.transactions == t.transactions
    ensures ProductStep(p, e) == p
  {
  }

  // ---------------------------------------------------------------------
  // Accumulator maps as the loop keeps them
  // ---------------------------------------------------------------------

  /**
   * `m` with insertion order `order` is the accumulator map after the events
   * `evs`: its keys are the keys seen, in first-seen order, and each holds the
   * accumulator of its group.
   */
  ghost predicate Tracks<K(!new), A>(m: map<K, A>, order: seq<K>, evs: seq<Event>,
                                   key: Event -> Option<K>, summary: seq<Event> -> A)
  {
    order == FirstSeen(evs, key)
    && (forall k :: k in m <==> k in order)
    && forall k :: k in m ==> m[k] == summary(Group(evs, key, k))
  }

  /** One more event extends exactly one group, the one of its key (none when it has no key). */
  lemma GroupSnoc<K>(evs: seq<Event>, e: Event, key: Event -> Option<K>, k: K)
    ensures Group(evs + [e], key, k) == Group(evs, key, k) + (if key(e) == Some(k) then [e] else [])
  {
    assert (evs + [e])[..|evs|] == evs;
  }

  /** One more event adds its key at the end of the key order, unless it has none or it was seen. */
  lemma FirstSeenSnoc<K>(evs: seq<Event>, e: Event, key: Event -> Option<K>)
    ensures FirstSeen(evs + [e], key) ==
      if key(e).Some? && key(e).value !in FirstSeen(evs, key) then FirstSeen(evs, key) + [key(e).value]
      else FirstSeen(evs, key)
  {
    assert (evs + [e])[..|evs|] == evs;
  }

  /**
   * Updating the entry of the event's key to the accumulator of its extended
   * group, and appending the key to the order when it is new, keeps the map in
   * step with the events.
   */
  lemma TracksStep<K(!new), A>(m: map<K, A>, order: seq<K>, evs: seq<Event>, key: Event -> Option<K>,
                               summary: seq<Event> -> A, e: Event, k: K, v: A)
    requires Tracks(m, order, evs, key, summary)
    requires key(e) == Some(k) && v == summary(Group(evs + [e], key, k))
    ensures Tracks(m[k := v], if k in m then order else order + [k], evs + [e], key, summary)
  {
    FirstSeenSnoc(evs, e, key);
    forall k' | k' in m && k' != k
      ensures m[k'] == summary(Group(evs + [e], key, k'))
    {
      GroupSnoc(evs, e, key, k');
      assert Group(evs + [e], key, k') == Group(evs, key, k');
    }
  }

  /** An event without a key leaves the map and the order as they are. */
  lemma TracksSkip<K(!new), A>(m: map<K, A>, order: seq<K>, evs: seq<Event>, key: Event -> Option<K>,
                               summary: seq<Event> -> A, e: Event)
    requires Tracks(m, order, evs, key, summary) && key(e).None?
    ensures Tracks(m, order, evs + [e], key, summary)
  {
    FirstSeenSnoc(evs, e, key);
    forall k' | k' in m
      ensures m[k'] == summary(Group(evs + [e], key, k'))
    {
      GroupSnoc(evs, e, key, k');
      assert Group(evs + [e], key, k') == Group(evs, key, k');
    }
  }
}
