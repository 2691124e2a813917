/** The item-count cart shared by the patient pharmacy page
    (app/patient/pharmacy/page.tsx) and the patient lab-test page
    (app/patient/lab-tests/page.tsx): a map from item id to how many of that
    item are in the cart. */
module Cart {
  import Keys

  type Cart = map<int, int>

  /** The shape both pages keep: every stored count is at least one. */
  predicate Valid(c: Cart)
  {
    forall k :: k in c ==> c[k] >= 1
  }

  /** `addToCart`: one more of `id`, an absent id counting as zero. */
  function Add(c: Cart, id: int): (d: Cart)
    ensures d.Keys == c.Keys + {id}
    ensures id in c ==> d[id] == c[id] + 1
    ensures id !in c ==> d[id] == 1
    ensures forall k :: k in c && k != id ==> d[k] == c[k]
    ensures Valid(c) ==> Valid(d)
  {
    c[id := (if id in c then c[id] else 0) + 1]
  }

  /** `removeFromCart`: one fewer of `id` while more than one is left,
      otherwise the entry goes; an absent id changes nothing. */
  function Remove(c: Cart, id: int): (d: Cart)
    ensures id in c && c[id] > 1 ==> d.Keys == c.Keys && d[id] == c[id] - 1
    ensures !(id in c && c[id] > 1) ==> d.Keys == c.Keys - {id}
    ensures forall k :: k in d && k != id ==> d[k] == c[k]
    ensures Valid(c) ==> Valid(d)
  {
    if id in c && c[id] > 1 then c[id := c[id] - 1] else c - {id}
  }

  /** `getTotalItems`: the sum of all counts, taken in key order. A valid
      cart holds at least as many items as it has entries. */
  function Total(c: Cart): (t: int)
    ensures c == map[] ==> t == 0
    ensures Valid(c) ==> t >= |c|
    decreases |c.Keys|
  {
    if c == map[] then 0
    else
      var k := Keys.MinOf(c.Keys);
      assert (c - {k}).Keys == c.Keys - {k};
      c[k] + Total(c - {k})
  }

  /** The total does not depend on the order of summation: any entry can be
      taken out first. */
  lemma {:induction false} TotalPeel(c: Cart, k: int)
    requires k in c
    ensures Total(c) == c[k] + Total(c - {k})
    decreases |c.Keys|
  {
    var m := Keys.MinOf(c.Keys);
    if m != k {
      assert (c - {m}).Keys == c.Keys - {m};
      assert (c - {k}).Keys == c.Keys - {k};
      TotalPeel(c - {m}, k);
      TotalPeel(c - {k}, m);
      assert c - {m} - {k} == c - {k} - {m};
    }
  }

  /** Overwriting one count moves the total by the difference. */
  lemma TotalAfterSet(c: Cart, k: int, v: int)
    ensures k in c ==> Total(c[k := v]) == Total(c) - c[k] + v
    ensures k !in c ==> Total(c[k := v]) == Total(c) + v
  {
    var d := c[k := v];
    TotalPeel(d, k);
    if k in c {
      TotalPeel(c, k);
      assert d - {k} == c - {k};
    } else {
      assert d - {k} == c;
    }
  }

  /** Adding raises the total by exactly one. */
  lemma TotalAfterAdd(c: Cart, id: int)
    ensures Total(Add(c, id)) == Total(c) + 1
  {
    TotalAfterSet(c, id, (if id in c then c[id] else 0) + 1);
  }

  /** Removing a present item lowers the total of a valid cart by exactly one;
      removing an absent one changes nothing. */
  lemma TotalAfterRemove(c: Cart, id: int)
    requires Valid(c)
    ensures id in c ==> Total(Remove(c, id)) == Total(c) - 1
    ensures id !in c ==> Remove(c, id) == c
  {
    if id in c {
      if c[id] > 1 {
        TotalAfterSet(c, id, c[id] - 1);
      } else {
        TotalPeel(c, id);
      }
    } else {
      assert c - {id} == c;
    }
  }

  /** Removing right after adding the same id gives back the cart. */
  lemma RemoveAfterAdd(c: Cart, id: int)
    requires Valid(c)
    ensures Remove(Add(c, id), id) == c
  {
    if id in c {
      assert Add(c, id)[id := c[id]] == c;
    } else {
      assert Add(c, id) - {id} == c;
    }
  }

  /** Whether the page shows the cart summary (and its checkout link). */
  function SummaryShown(c: Cart): (shown: bool)
    ensures c == map[] ==> !shown
  {
    Total(c) > 0
  }

  /** For a valid cart the summary is shown exactly when the cart has an
      entry. */
  lemma SummaryShownIffNonEmpty(c: Cart)
    requires Valid(c)
    ensures SummaryShown(c) <==> c != map[]
  {
    if c != map[] {
      assert |c| >= 1 by {
        var k := Keys.PickOne(c.Keys);
      }
    }
  }
}
