/**
 * The menu lists of both menus: section headers mixed with the items that become cards, and
 * the filtering that `build_menu` / `_build_menu` do when they create one card per item.
 */
module MenuList {

  /** An entry of `MENU_ITEMS`: a section header, or an item that becomes a card. */
  datatype MenuItem<D> = Header(title: string) | Item(data: D)

  /** The items that become cards, in menu order: every item that is not a header. */
  function CardsOf<D>(items: seq<MenuItem<D>>): (r: seq<D>)
    ensures |r| + HeaderCount(items) == |items|
  {
    if items == [] then []
    else (if items[0].Header? then [] else [items[0].data]) + CardsOf(items[1..])
  }

  lemma {:induction false} CardsOfAppend<D>(a: seq<MenuItem<D>>, b: seq<MenuItem<D>>)
    ensures CardsOf(a + b) == CardsOf(a) + CardsOf(b)
  {
    if a == [] {
      assert a + b == b;
    } else {
      assert (a + b)[0] == a[0] && (a + b)[1..] == a[1..] + b;
      CardsOfAppend(a[1..], b);
    }
  }

  /** One more entry adds its card, unless it is a header. */
  lemma CardsOfPrefix<D>(items: seq<MenuItem<D>>, k: nat)
    requires k < |items|
    ensures CardsOf(items[..k + 1]) == CardsOf(items[..k]) + (if items[k].Item? then [items[k].data] else [])
  {
    var one := [items[k]];
    assert items[..k + 1] == items[..k] + one;
    assert one[1..] == [];
    CardsOfAppend(items[..k], one);
  }

  function HeaderCount<D>(items: seq<MenuItem<D>>): nat {
    if items == [] then 0 else (if items[0].Header? then 1 else 0) + HeaderCount(items[1..])
  }

  /**
   * Building the menu drops exactly the headers: there is one card per other item, each item's
   * data is a card, and every card comes from an item.
   */
  lemma {:induction false} CardsOfDropsHeaders<D>(items: seq<MenuItem<D>>)
    ensures |CardsOf(items)| + HeaderCount(items) == |items|
    ensures forall d :: d in CardsOf(items) <==> Item(d) in items
  {
    if items != [] {
      CardsOfDropsHeaders(items[1..]);
      assert items == [items[0]] + items[1..];
      forall d
        ensures Item(d) in items <==> (items[0] == Item(d) || Item(d) in items[1..])
      {
      }
    }
  }

  /** Item entries for a run of card data, in order. */
  function ItemsOf<D>(ds: seq<D>): (r: seq<MenuItem<D>>)
    ensures |r| == |ds| && forall i :: 0 <= i < |ds| ==> r[i] == Item(ds[i])
  {
    if ds == [] then [] else [Item(ds[0])] + ItemsOf(ds[1..])
  }

  lemma {:induction false} CardsOfItems<D>(ds: seq<D>)
    ensures CardsOf(ItemsOf(ds)) == ds
  {
    if ds != [] {
      var r := ItemsOf(ds);
      assert r[0] == Item(ds[0]) && r[1..] == ItemsOf(ds[1..]);
      CardsOfItems(ds[1..]);
    }
  }

  lemma CardsOfHeader<D>(title: string)
    ensures CardsOf<D>([Header(title)]) == []
  {
    var h: seq<MenuItem<D>> := [Header(title)];
    assert h[1..] == [];
  }

  /** Appending a section, a header and its items, appends the section's cards. */
  lemma CardsOfSection<D>(prefix: seq<MenuItem<D>>, title: string, ds: seq<D>)
    ensures CardsOf(prefix + [Header(title)] + ItemsOf(ds)) == CardsOf(prefix) + ds
  {
    var h: seq<MenuItem<D>> := [Header(title)];
    CardsOfAppend(prefix + h, ItemsOf(ds));
    CardsOfAppend(prefix, h);
    CardsOfHeader<D>(title);
    CardsOfItems(ds);
  }

  /** A menu of three sections, each a header and its items, has the sections' cards in order. */
  lemma CardsOfSections<D>(t1: string, a: seq<D>, t2: string, b: seq<D>, t3: string, c: seq<D>)
    ensures CardsOf([Header(t1)] + ItemsOf(a) + [Header(t2)] + ItemsOf(b) + [Header(t3)] + ItemsOf(c))
      == a + b + c
  {
    var empty: seq<MenuItem<D>> := [];
    var first := [Header(t1)] + ItemsOf(a);
    assert empty + [Header(t1)] + ItemsOf(a) == first;
    CardsOfSection(empty, t1, a);
    assert CardsOf(first) == a;
    var second := first + [Header(t2)] + ItemsOf(b);
    CardsOfSection(first, t2, b);
    assert CardsOf(second) == a + b;
    CardsOfSection(second, t3, c);
  }
}
