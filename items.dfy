/**
 * The declarative menu definition and the flat list of rows built from it
 * (`createMenuItemNodes` / `createMenuItemNode`). A rendered row is modelled
 * by the data that distinguishes it: its label, its animation-delay tier, the
 * divider flag and the listeners attached to its button.
 */
module Items {
  import opened Wrappers

  /** An event handler supplied by the caller: opaque, compared by identity. */
  type Handler = nat

  /** A menu item; `markup` is its label, inserted into the button as HTML. */
  datatype MenuItem = MenuItem(markup: string, events: Option<map<string, Handler>>)

  /** A top-level entry of the menu: a single item or a divided group. */
  datatype Entry = Single(item: MenuItem) | Group(items: seq<MenuItem>)

  /**
   * One `contextMenu-item` row. `tier` is the multiplier of the 0.08 s
   * animation delay; `divider` is the `data-divider` attribute.
   */
  datatype Row = Row(markup: string, tier: nat, divider: bool, listeners: map<string, Handler>)

  /** `createMenuItemNode`: a fresh row without divider. */
  function ItemRow(item: MenuItem, index: nat): Row
  {
    Row(item.markup, index, false, item.events.GetOr(map[]))
  }

  /** Number of rows an entry contributes. */
  function Width(e: Entry): nat
  {
    match e
    case Single(_) => 1
    case Group(g) => |g|
  }

  /** The `j`-th item of an entry. */
  function ItemOf(e: Entry, j: nat): MenuItem
    requires j < Width(e)
  {
    match e
    case Single(it) => it
    case Group(g) => g[j]
  }

  /** Row `k` of a group at top-level index `idx`: marked when it is the group's last. */
  function GroupRow(g: seq<MenuItem>, k: nat, idx: nat): Row
    requires k < |g|
  {
    ItemRow(g[k], idx).(divider := k == |g| - 1)
  }

  /** The rows contributed by the entry at top-level index `idx`. */
  function EntryRows(e: Entry, idx: nat): seq<Row>
  {
    match e
    case Single(it) => [ItemRow(it, idx)]
    case Group(g) => seq(|g|, k requires 0 <= k < |g| => GroupRow(g, k, idx))
  }

  /** Reference definition of the row list: entries expanded one after the other. */
  function Flatten(es: seq<Entry>): seq<Row>
  {
    if es == [] then [] else Flatten(es[..|es| - 1]) + EntryRows(es[|es| - 1], |es| - 1)
  }

  /** Sum over the entries of 1 for a single item and the group's length for a group. */
  function RowCount(es: seq<Entry>): nat
  {
    if es == [] then 0 else RowCount(es[..|es| - 1]) + Width(es[|es| - 1])
  }

  /** Position in the row list of the first row of entry `i`. */
  function Offset(es: seq<Entry>, i: nat): nat
    requires i <= |es|
  {
    RowCount(es[..i])
  }

  /** All items of the menu, groups opened in place, in order. */
  function AllItems(es: seq<Entry>): seq<MenuItem>
  {
    if es == [] then []
    else AllItems(es[..|es| - 1]) + seq(Width(es[|es| - 1]), j requires 0 <= j < Width(es[|es| - 1]) => ItemOf(es[|es| - 1], j))
  }

  /** Number of groups with at least one item. */
  function NonEmptyGroups(es: seq<Entry>): nat
  {
    if es == [] then 0
    else NonEmptyGroups(es[..|es| - 1]) + (if es[|es| - 1].Group? && es[|es| - 1].items != [] then 1 else 0)
  }

  /** Number of rows that carry the divider flag. */
  function Dividers(rows: seq<Row>): nat
  {
    if rows == [] then 0 else Dividers(rows[..|rows| - 1]) + (if rows[|rows| - 1].divider then 1 else 0)
  }

  // ---------------------------------------------------------------------------
  // The row count

  /** The number of rows is the sum of the entries' widths. */
  lemma {:induction false} FlattenLength(es: seq<Entry>)
    ensures |Flatten(es)| == RowCount(es)
  {
    if es != [] {
      FlattenLength(es[..|es| - 1]);
    }
  }

  /** The row list of a prefix of the menu is a prefix of the row list. */
  lemma {:induction false} FlattenPrefix(es: seq<Entry>, i: nat)
    requires i <= |es|
    ensures Flatten(es[..i]) <= Flatten(es)
  {
    if i < |es| {
      var init := es[..|es| - 1];
      assert es[..i] == init[..i];
      FlattenPrefix(init, i);
      assert es[..|es|] == es;
    } else {
      assert es[..i] == es;
    }
  }

  // ---------------------------------------------------------------------------
  // Where every row comes from

  /**
   * Row `j` of entry `i` sits at `Offset(es, i) + j`; it carries the item's
   * label and listeners, the top-level index `i` as its tier, and the divider
   * exactly when entry `i` is a group and the row is that group's last.
   */
  lemma RowOfEntry(es: seq<Entry>, i: nat, j: nat)
    requires i < |es| && j < Width(es[i])
    ensures Offset(es, i) + j < |Flatten(es)|
    ensures Flatten(es)[Offset(es, i) + j].markup == ItemOf(es[i], j).markup
    ensures Flatten(es)[Offset(es, i) + j].listeners == ItemOf(es[i], j).events.GetOr(map[])
    ensures Flatten(es)[Offset(es, i) + j].tier == i
    ensures Flatten(es)[Offset(es, i) + j].divider <==> es[i].Group? && j == |es[i].items| - 1
  {
    var pre := es[..i + 1];
    assert pre[..i] == es[..i] && pre[i] == es[i];
    FlattenLength(es[..i]);
    FlattenPrefix(es, i + 1);
    var block := EntryRows(es[i], i);
    assert Flatten(pre) == Flatten(es[..i]) + block;
    EntryRowAt(es[i], i, j);
    assert Flatten(es)[Offset(es, i) + j] == Flatten(pre)[Offset(es, i) + j] == block[j];
  }

  lemma EntryRowAt(e: Entry, idx: nat, j: nat)
    requires j < Width(e)
    ensures |EntryRows(e, idx)| == Width(e)
    ensures EntryRows(e, idx)[j].markup == ItemOf(e, j).markup
    ensures EntryRows(e, idx)[j].listeners == ItemOf(e, j).events.GetOr(map[])
    ensures EntryRows(e, idx)[j].tier == idx
    ensures EntryRows(e, idx)[j].divider <==> e.Group? && j == |e.items| - 1
  {
  }

  /**
   * Conversely, every row lies inside the block of the entry whose index is
   * its tier: rows are exactly the entries' rows, in entry order.
   */
  lemma {:induction false} RowOrigin(es: seq<Entry>, p: nat)
    requires p < |Flatten(es)|
    ensures Flatten(es)[p].tier < |es|
    ensures Offset(es, Flatten(es)[p].tier) <= p < Offset(es, Flatten(es)[p].tier) + Width(es[Flatten(es)[p].tier])
  {
    var n := |es| - 1;
    var init := es[..n];
    FlattenLength(init);
    var t := Flatten(es)[p].tier;
    if p < |Flatten(init)| {
      RowOrigin(init, p);
      assert Flatten(es)[p] == Flatten(init)[p];
      assert init[..t] == es[..t];
    } else {
      assert es[..n] == init;
      assert Flatten(es)[p] == EntryRows(es[n], n)[p - |Flatten(init)|];
      assert t == n;
    }
  }

  /** Tiers never decrease along the row list. */
  lemma {:induction false} TiersNondecreasing(es: seq<Entry>, p: nat, q: nat)
    requires p <= q < |Flatten(es)|
    ensures Flatten(es)[p].tier <= Flatten(es)[q].tier
  {
    var n := |es| - 1;
    var init := es[..n];
    var head := Flatten(init);
    if q < |head| {
      TiersNondecreasing(init, p, q);
    } else if p < |head| {
      RowOrigin(init, p);
      assert Flatten(es)[q] == EntryRows(es[n], n)[q - |head|];
    } else {
      assert Flatten(es)[q] == EntryRows(es[n], n)[q - |head|];
      assert Flatten(es)[p] == EntryRows(es[n], n)[p - |head|];
    }
  }

  /** Labels and listeners of the rows are those of the items, in order. */
  lemma {:induction false} FlattenItems(es: seq<Entry>)
    ensures |Flatten(es)| == |AllItems(es)|
    ensures forall p :: 0 <= p < |Flatten(es)| ==>
      Flatten(es)[p].markup == AllItems(es)[p].markup &&
      Flatten(es)[p].listeners == AllItems(es)[p].events.GetOr(map[])
  {
    if es != [] {
      FlattenItems(es[..|es| - 1]);
    }
  }

  // ---------------------------------------------------------------------------
  // Dividers

  lemma {:induction false} DividersAppend(a: seq<Row>, b: seq<Row>)
    ensures Dividers(a + b) == Dividers(a) + Dividers(b)
  {
    if b != [] {
      var b' := b[..|b| - 1];
      assert (a + b)[..|a + b| - 1] == a + b';
      DividersAppend(a, b');
    } else {
      assert a + b == a;
    }
  }

  lemma {:induction false} DividersOfGroup(g: seq<MenuItem>, idx: nat, k: nat)
    requires k <= |g|
    ensures Dividers(EntryRows(Group(g), idx)[..k]) == if k == |g| && g != [] then 1 else 0
  {
    if k > 0 {
      var rows := EntryRows(Group(g), idx);
      assert rows[..k][..k - 1] == rows[..k - 1];
      DividersOfGroup(g, idx, k - 1);
    }
  }

  /** One divider per non-empty group, none for single items or empty groups. */
  lemma {:induction false} DividerCount(es: seq<Entry>)
    ensures Dividers(Flatten(es)) == NonEmptyGroups(es)
  {
    if es != [] {
      var n := |es| - 1;
      DividerCount(es[..n]);
      DividersAppend(Flatten(es[..n]), EntryRows(es[n], n));
      match es[n]
      case Single(it) =>
        assert Dividers([ItemRow(it, n)]) == Dividers([]) + 0;
      case Group(g) =>
        DividersOfGroup(g, n, |g|);
        assert EntryRows(es[n], n)[..|g|] == EntryRows(es[n], n);
    }
  }

  // ---------------------------------------------------------------------------
  // The construction loop

  /**
   * `createMenuItemNodes`: a missing item list builds nothing; otherwise the
   * entries are walked in order, groups expanded in place, the last row of a
   * group marked as divider, every row tiered by its top-level index.
   */
  method CreateMenuItemNodes(menuItems: Option<seq<Entry>>) returns (nodes: seq<Row>, missing: bool)
    ensures missing <==> menuItems.None?
    ensures menuItems.None? ==> nodes == []
    ensures menuItems.Some? ==> nodes == Flatten(menuItems.value)
  {
    nodes := [];
    if menuItems.None? {
      return [], true;
    }
    missing := false;
    var es := menuItems.value;
    for idx := 0 to |es|
      invariant nodes == Flatten(es[..idx])
    {
      assert es[..idx + 1][..idx] == es[..idx];
      var done := nodes;
      match es[idx]
      case Group(g) =>
        for idx2 := 0 to |g|
          invariant |nodes| == |done| + idx2
          invariant nodes[..|done|] == done
          invariant forall k :: 0 <= k < idx2 ==> nodes[|done| + k] == GroupRow(g, k, idx)
        {
          var node := ItemRow(g[idx2], idx);
          if idx2 == |g| - 1 {
            node := node.(divider := true);
          }
          nodes := nodes + [node];
        }
        assert nodes == done + EntryRows(Group(g), idx);
      case Single(it) =>
        nodes := nodes + [ItemRow(it, idx)];
    }
    assert es[..|es|] == es;
  }
}
