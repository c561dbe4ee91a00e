/** The tutorial's inventory, in its three forms: the Rust `Inventory` (with
    `add_one` from the wasm32 variant), the C++ `cpp_inventory::Inventory`, and
    the glue in `impls.cpp` that lets Rust call the C++ one and print it with
    `{:?}`. `u32` values are naturals below 2^32. */
module Inventory {
  import opened Wrappers
  import opened StrUtil

  const U32: nat := 0x1_0000_0000
  /** `usize` on the wasm32 target. */
  const USIZE_WASM32: nat := 0x1_0000_0000

  const BANANA := "banana"
  const BANANA_SIZE: nat := 7

  datatype Item = Item(name: string, size: nat)

  /** `count` bananas, in the order `add_banana` adds them. */
  function Bananas(count: nat): (r: seq<Item>)
    ensures |r| == count
    ensures forall i :: 0 <= i < count ==> r[i] == Item(BANANA, BANANA_SIZE)
  {
    if count == 0 then [] else Bananas(count - 1) + [Item(BANANA, BANANA_SIZE)]
  }

  /** Adding bananas in two rounds adds them all. */
  lemma {:induction false} BananasAdd(m: nat, n: nat)
    ensures Bananas(m + n) == Bananas(m) + Bananas(n)
    decreases n
  {
    if n > 0 {
      BananasAdd(m, n - 1);
    }
  }

  /** The Rust `Inventory`. Subtraction on `u32` is checked, as in a debug
      build: an item larger than the space left panics before anything
      changes. */
  class RustInventory {
    var items: seq<Item>
    var remainingSpace: nat

    ghost predicate Valid()
      reads this
    {
      remainingSpace < U32
    }

    /** `new_empty`. */
    constructor NewEmpty(space: nat)
      requires space < U32
      ensures Valid() && items == [] && remainingSpace == space
    {
      items := [];
      remainingSpace := space;
    }

    /** `add_item`. */
    method AddItem(item: Item) returns (panicked: bool)
      requires Valid() && item.size < U32
      modifies this
      ensures Valid()
      ensures panicked <==> item.size > old(remainingSpace)
      ensures panicked ==> items == old(items) && remainingSpace == old(remainingSpace)
      ensures !panicked ==> items == old(items) + [item] && remainingSpace == old(remainingSpace) - item.size
    {
      if item.size > remainingSpace {
        return true;
      }
      panicked := false;
      remainingSpace := remainingSpace - item.size;
      items := items + [item];
    }

    /** `add_banana`: `count` calls of `add_item`; the first banana that does
        not fit panics, after the ones before it were added. */
    method AddBanana(count: nat) returns (panicked: bool)
      requires Valid() && count < U32
      modifies this
      ensures Valid()
      ensures panicked <==> BANANA_SIZE * count > old(remainingSpace)
      ensures !panicked ==>
                items == old(items) + Bananas(count)
                && remainingSpace == old(remainingSpace) - BANANA_SIZE * count
      ensures panicked ==>
                items == old(items) + Bananas(old(remainingSpace) / BANANA_SIZE)
                && remainingSpace == old(remainingSpace) % BANANA_SIZE
    {
      panicked := false;
      for k := 0 to count
        invariant Valid()
        invariant BANANA_SIZE * k <= old(remainingSpace)
        invariant items == old(items) + Bananas(k)
        invariant remainingSpace == old(remainingSpace) - BANANA_SIZE * k
      {
        panicked := AddItem(Item(BANANA, BANANA_SIZE));
        if panicked {
          DivisionOfRemainder(old(remainingSpace), k);
          return;
        }
      }
    }

    /** `into_items`. */
    function IntoItems(): (r: seq<Item>)
      reads this
      ensures |r| == |items| && forall i :: 0 <= i < |r| ==> r[i] == items[i]
    {
      items
    }
  }

  /** Once fewer than seven units are left after `k` bananas, `k` is how many
      fit. */
  lemma DivisionOfRemainder(space: nat, k: nat)
    requires BANANA_SIZE * k <= space && space - BANANA_SIZE * k < BANANA_SIZE
    ensures space / BANANA_SIZE == k && space % BANANA_SIZE == space - BANANA_SIZE * k
  {
  }

  /** `add_one` on wasm32, with the overflow check of a debug build. */
  function AddOne(x: nat): (r: Option<nat>)
    requires x < USIZE_WASM32
    ensures r.Some? <==> x < USIZE_WASM32 - 1
    ensures r.Some? ==> r.value < USIZE_WASM32 && r.value - 1 == x
  {
    if x + 1 < USIZE_WASM32 then Some(x + 1) else None
  }

  /** `cpp_inventory::Inventory`: unsigned subtraction wraps modulo 2^32. */
  class CppInventory {
    var items: seq<Item>
    var remainingSpace: nat

    ghost predicate Valid()
      reads this
    {
      remainingSpace < U32
    }

    constructor(space: nat)
      requires space < U32
      ensures Valid() && items == [] && remainingSpace == space
    {
      items := [];
      remainingSpace := space;
    }

    method AddItem(item: Item)
      requires Valid() && item.size < U32
      modifies this
      ensures Valid()
      ensures items == old(items) + [item]
      ensures remainingSpace == (old(remainingSpace) - item.size) % U32
    {
      remainingSpace := (remainingSpace - item.size) % U32;
      items := items + [item];
    }

    method AddBanana(count: nat)
      requires Valid() && count < U32
      modifies this
      ensures Valid()
      ensures items == old(items) + Bananas(count)
      ensures remainingSpace == (old(remainingSpace) - BANANA_SIZE * count) % U32
    {
      var i := 0;
      while i < count
        invariant 0 <= i <= count && Valid()
        invariant items == old(items) + Bananas(i)
        invariant remainingSpace == (old(remainingSpace) - BANANA_SIZE * i) % U32
      {
        WrapSub(old(remainingSpace) - BANANA_SIZE * i, BANANA_SIZE);
        AddItem(Item(BANANA, BANANA_SIZE));
        i := i + 1;
      }
    }
  }

  /** Subtracting after wrapping is wrapping after subtracting. */
  lemma WrapSub(a: int, b: int)
    ensures (a % U32 - b) % U32 == (a - b) % U32
  {
    var q := a / U32;
    assert a == q * U32 + a % U32;
    assert a - b == (a % U32 - b) + q * U32;
  }

  /** Where the Rust inventory does not panic, the C++ one ends with the same
      space left. */
  lemma WrapAgreesWhenItFits(space: nat, used: nat)
    requires space < U32 && used <= space
    ensures (space - used) % U32 == space - used
  {
  }

  /** `impls.cpp` builds an `Item` from a `&str` and a size: exactly the `len`
      bytes at the pointer become the name. */
  function ItemNew(memory: string, ptr: nat, len: nat, size: nat): (r: Item)
    requires ptr + len <= |memory|
    ensures |r.name| == len && r.size == size
    ensures forall i :: 0 <= i < len ==> r.name[i] == memory[ptr + i]
  {
    Item(memory[ptr..ptr + len], size)
  }

  /** `impl Debug for Item`, as written by `impls.cpp`. */
  function ItemDebug(it: Item): string {
    ITEM_OPEN + it.name + ITEM_SIZE + NatToString(it.size) + ITEM_CLOSE
  }

  const ITEM_OPEN := "Item { name: \""
  const ITEM_SIZE := "\", size: "
  const ITEM_CLOSE := " }"

  /** The rendering of each item, in order. */
  function ItemDebugs(items: seq<Item>): (r: seq<string>)
    ensures |r| == |items|
    ensures forall i :: 0 <= i < |items| ==> r[i] == ItemDebug(items[i])
  {
    if |items| == 0 then [] else ItemDebugs(items[..|items| - 1]) + [ItemDebug(items[|items| - 1])]
  }

  const DEBUG_PREFIX := "Inventory { remaining_space: "
  const ITEMS_OPEN := ", items: ["
  const DEBUG_CLOSE := "] }"

  /** `impl Debug for Inventory`: the space in decimal, then the items
      separated by `", "`. */
  function InventoryDebug(space: nat, items: seq<Item>): string {
    DEBUG_PREFIX + NatToString(space) + ITEMS_OPEN + Join(ItemDebugs(items), ", ") + DEBUG_CLOSE
  }

  predicate NoNul(s: string) { forall i :: 0 <= i < |s| ==> s[i] != '\0' }

  /** `rust::Str::from_char_star(s.c_str())`: the text up to its first NUL. */
  function UpToNul(s: string): (r: string)
    ensures r <= s && NoNul(r)
    ensures |r| < |s| ==> s[|r|] == '\0'
    decreases |s|
  {
    if |s| == 0 || s[0] == '\0' then "" else [s[0]] + UpToNul(s[1..])
  }

  /** The cut keeps a text whole exactly when it holds no NUL. */
  lemma UpToNulWhole(s: string)
    ensures UpToNul(s) == s <==> NoNul(s)
  {
  }

  /** `fmt` in `impls.cpp`: the loop with its `is_first` flag writes
      separators between entries only, and the text is handed to Rust
      through `c_str()`, so it ends at the first NUL. */
  method Fmt(inv: CppInventory) returns (result: string)
    ensures result == UpToNul(InventoryDebug(inv.remainingSpace, inv.items))
  {
    var text := DebugText(inv);
    result := UpToNul(text);
  }

  /** The text `fmt` builds: the loop with its `is_first` flag writes
      separators between entries only. */
  method DebugText(inv: CppInventory) returns (text: string)
    ensures text == InventoryDebug(inv.remainingSpace, inv.items)
  {
    text := DEBUG_PREFIX;
    text := text + NatToString(inv.remainingSpace);
    text := text + ITEMS_OPEN;
    ghost var head := text;
    var isFirst := true;
    for k := 0 to |inv.items|
      invariant isFirst <==> k == 0
      invariant text == head + Join(ItemDebugs(inv.items[..k]), ", ")
    {
      ghost var before := text;
      ghost var sep := "";
      if !isFirst {
        text := text + ", ";
        sep := ", ";
      } else {
        isFirst := false;
      }
      text := text + ItemDebug(inv.items[k]);
      ItemsJoinStep(inv.items, k);
      AppendAssoc(head, Join(ItemDebugs(inv.items[..k]), ", "), sep, ItemDebug(inv.items[k]));
    }
    assert inv.items[..|inv.items|] == inv.items;
    text := text + DEBUG_CLOSE;
  }

  /** One more item adds a separator, unless it is the first, and its text. */
  lemma ItemsJoinStep(items: seq<Item>, k: nat)
    requires k < |items|
    ensures Join(ItemDebugs(items[..k + 1]), ", ") ==
            Join(ItemDebugs(items[..k]), ", ") + (if k == 0 then "" else ", ") + ItemDebug(items[k])
  {
    assert items[..k + 1][..k] == items[..k];
    assert ItemDebugs(items[..k + 1]) == ItemDebugs(items[..k]) + [ItemDebug(items[k])];
    if k > 0 {
      JoinAppend(ItemDebugs(items[..k]), ItemDebug(items[k]), ", ");
    }
  }

  lemma AppendAssoc(a: string, b: string, c: string, d: string)
    ensures a + b + c + d == a + (b + c + d)
  {
  }

  lemma NoNulAppend(a: string, b: string)
    requires NoNul(a) && NoNul(b)
    ensures NoNul(a + b)
  {
    forall i | 0 <= i < |a + b| ensures (a + b)[i] != '\0' {
      if i >= |a| { assert (a + b)[i] == b[i - |a|]; }
    }
  }

  lemma NumberNoNul(n: nat)
    ensures NoNul(NatToString(n))
  {
    NatToStringDigits(n);
    var d := NatToString(n);
    forall i | 0 <= i < |d| ensures d[i] != '\0' {
      assert IsDigit(d[i]);
    }
  }

  lemma {:induction false} JoinNoNul(parts: seq<string>, sep: string)
    requires NoNul(sep) && forall i :: 0 <= i < |parts| ==> NoNul(parts[i])
    ensures NoNul(Join(parts, sep))
    decreases |parts|
  {
    if |parts| > 1 {
      JoinNoNul(parts[1..], sep);
      NoNulAppend(parts[0], sep);
      NoNulAppend(parts[0] + sep, Join(parts[1..], sep));
    }
  }

  /** Items whose names hold no NUL print in full: the cut at the first NUL
      changes nothing then. */
  lemma FmtWhole(space: nat, items: seq<Item>)
    requires forall i :: 0 <= i < |items| ==> NoNul(items[i].name)
    ensures UpToNul(InventoryDebug(space, items)) == InventoryDebug(space, items)
  {
    var ds := ItemDebugs(items);
    forall i | 0 <= i < |ds| ensures NoNul(ds[i]) {
      NumberNoNul(items[i].size);
      assert NoNul(ITEM_OPEN) && NoNul(ITEM_SIZE) && NoNul(ITEM_CLOSE);
      NoNulAppend(ITEM_OPEN, items[i].name);
      NoNulAppend(ITEM_OPEN + items[i].name, ITEM_SIZE);
      NoNulAppend(ITEM_OPEN + items[i].name + ITEM_SIZE, NatToString(items[i].size));
      NoNulAppend(ITEM_OPEN + items[i].name + ITEM_SIZE + NatToString(items[i].size), ITEM_CLOSE);
    }
    assert NoNul(", ");
    JoinNoNul(ds, ", ");
    NumberNoNul(space);
    assert NoNul(DEBUG_PREFIX) && NoNul(ITEMS_OPEN) && NoNul(DEBUG_CLOSE);
    NoNulAppend(DEBUG_PREFIX, NatToString(space));
    NoNulAppend(DEBUG_PREFIX + NatToString(space), ITEMS_OPEN);
    NoNulAppend(DEBUG_PREFIX + NatToString(space) + ITEMS_OPEN, Join(ds, ", "));
    NoNulAppend(DEBUG_PREFIX + NatToString(space) + ITEMS_OPEN + Join(ds, ", "), DEBUG_CLOSE);
    UpToNulWhole(InventoryDebug(space, items));
  }

  /** An item whose name holds a NUL is printed cut off right before it:
      the text ends inside that name. */
  lemma FmtCutsAtNul(space: nat, a: string, b: string, size: nat)
    requires NoNul(a)
    ensures UpToNul(InventoryDebug(space, [Item(a + "\0" + b, size)])) ==
            DEBUG_PREFIX + NatToString(space) + ITEMS_OPEN + ITEM_OPEN + a
  {
    var head := DEBUG_PREFIX + NatToString(space) + ITEMS_OPEN;
    var z := "\0" + b;
    var tail := z + ITEM_SIZE + NatToString(size) + ITEM_CLOSE;
    assert a + "\0" + b == a + z;
    SingleItemDebug(space, Item(a + z, size));
    NameSplitDebug(a, z, size);
    Regroup(head, ITEM_OPEN + a, tail, DEBUG_CLOSE);
    HeadNoNul(space, a);
    assert (tail + DEBUG_CLOSE)[0] == z[0] == '\0';
    UpToNulAt(head + (ITEM_OPEN + a), tail + DEBUG_CLOSE);
    assert head + (ITEM_OPEN + a) == DEBUG_PREFIX + NatToString(space) + ITEMS_OPEN + ITEM_OPEN + a;
  }

  lemma SingleItemDebug(space: nat, it: Item)
    ensures InventoryDebug(space, [it]) == DEBUG_PREFIX + NatToString(space) + ITEMS_OPEN + ItemDebug(it) + DEBUG_CLOSE
  {
    assert ItemDebugs([it]) == [ItemDebug(it)];
  }

  lemma NameSplitDebug(a: string, z: string, size: nat)
    ensures ItemDebug(Item(a + z, size)) == (ITEM_OPEN + a) + (z + ITEM_SIZE + NatToString(size) + ITEM_CLOSE)
  {
  }

  lemma HeadNoNul(space: nat, a: string)
    requires NoNul(a)
    ensures NoNul(DEBUG_PREFIX + NatToString(space) + ITEMS_OPEN + (ITEM_OPEN + a))
  {
    NumberNoNul(space);
    assert NoNul(DEBUG_PREFIX) && NoNul(ITEMS_OPEN) && NoNul(ITEM_OPEN);
    NoNulAppend(DEBUG_PREFIX, NatToString(space));
    NoNulAppend(DEBUG_PREFIX + NatToString(space), ITEMS_OPEN);
    NoNulAppend(ITEM_OPEN, a);
    NoNulAppend(DEBUG_PREFIX + NatToString(space) + ITEMS_OPEN, ITEM_OPEN + a);
  }

  lemma Regroup(h: string, x: string, t: string, c: string)
    ensures h + (x + t) + c == (h + x) + (t + c)
  {
  }

  /** A NUL right after a NUL-free text ends the cut there. */
  lemma {:induction false} UpToNulAt(a: string, b: string)
    requires NoNul(a) && |b| > 0 && b[0] == '\0'
    ensures UpToNul(a + b) == a
    decreases |a|
  {
    if |a| == 0 {
      assert a + b == b;
    } else {
      assert (a + b)[1..] == a[1..] + b;
      UpToNulAt(a[1..], b);
      assert [a[0]] + a[1..] == a;
    }
  }

  /** An empty inventory prints `items: []`. */
  lemma EmptyInventoryDebug(space: nat)
    ensures InventoryDebug(space, []) == DEBUG_PREFIX + NatToString(space) + ", items: [] }"
  {
  }

  /** The space printed after the prefix reads back as the space. */
  lemma DebugSpaceReadsBack(space: nat, items: seq<Item>)
    requires space < U32
    ensures var s := InventoryDebug(space, items);
            var n := |NatToString(space)|;
            |DEBUG_PREFIX| + n <= |s|
            && ParseUnsigned(s[|DEBUG_PREFIX|..|DEBUG_PREFIX| + n], U32) == Some(space)
  {
    var d := NatToString(space);
    var rest := ITEMS_OPEN + Join(ItemDebugs(items), ", ") + DEBUG_CLOSE;
    assert InventoryDebug(space, items) == DEBUG_PREFIX + d + rest;
    MiddleSlice(DEBUG_PREFIX, d, rest);
    ParseOfNatToString(space, U32);
  }

  lemma MiddleSlice(a: string, b: string, c: string)
    ensures (a + b + c)[|a|..|a| + |b|] == b
  {
  }

  /** `Impl<Inventory>::add_banana`: the Rust-facing method hands the count to
      the C++ inventory and returns unit. */
  method ImplAddBanana(inv: CppInventory, count: nat)
    requires inv.Valid() && count < U32
    modifies inv
    ensures inv.Valid() && inv.items == old(inv.items) + Bananas(count)
    ensures inv.remainingSpace == (old(inv.remainingSpace) - BANANA_SIZE * count) % U32
  {
    inv.AddBanana(count);
  }

  /** `Impl<Inventory>::add_item`. */
  method ImplAddItem(inv: CppInventory, item: Item)
    requires inv.Valid() && item.size < U32
    modifies inv
    ensures inv.Valid() && inv.items == old(inv.items) + [item]
    ensures inv.remainingSpace == (old(inv.remainingSpace) - item.size) % U32
  {
    inv.AddItem(item);
  }

  /** `Impl<Inventory>::new_empty`. */
  method ImplNewEmpty(space: nat) returns (inv: CppInventory)
    requires space < U32
    ensures fresh(inv) && inv.Valid() && inv.items == [] && inv.remainingSpace == space
  {
    inv := new CppInventory(space);
  }
}
