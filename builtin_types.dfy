/** The list of C++ types the header template declares support for
    (`CppHeaderTemplate::builtin_types`): the fixed-width integers, the
    references to them, the opaque owned object and three scalar names. */
module BuiltinTypes {
  import opened StrUtil

  const WIDTHS: seq<nat> := [8, 16, 32, 64]

  /** `int{x}_t` then `uint{x}_t`. */
  function Scalars(x: nat): (r: seq<string>)
    ensures |r| == 2
  {
    ["int" + NatToString(x) + "_t", "uint" + NatToString(x) + "_t"]
  }

  /** `Ref` and `RefMut` to the signed and the unsigned integer of width `x`. */
  function Refs(x: nat): (r: seq<string>)
    ensures |r| == 4
  {
    ["::rust::Ref<int" + NatToString(x) + "_t>", "::rust::Ref<uint" + NatToString(x) + "_t>",
     "::rust::RefMut<int" + NatToString(x) + "_t>", "::rust::RefMut<uint" + NatToString(x) + "_t>"]
  }

  const OTHERS: seq<string> := ["::rust::ZngurCppOpaqueOwnedObject", "::double_t", "::float_t", "::size_t"]

  /** `flat_map` over a list of widths. */
  function FlatMap(ws: seq<nat>, f: nat -> seq<string>): seq<string>
    decreases |ws|
  {
    if |ws| == 0 then [] else FlatMap(ws[..|ws| - 1], f) + f(ws[|ws| - 1])
  }

  function Builtins(): seq<string> {
    FlatMap(WIDTHS, Scalars) + FlatMap(WIDTHS, Refs) + OTHERS
  }

  /** When every width yields `n` names, the names of width `k` sit at
      `n * k`, in order. */
  lemma {:induction false} FlatMapAt(ws: seq<nat>, f: nat -> seq<string>, n: nat)
    requires forall w :: |f(w)| == n
    ensures |FlatMap(ws, f)| == n * |ws|
    ensures forall k, j | 0 <= k < |ws| && 0 <= j < n :: FlatMap(ws, f)[n * k + j] == f(ws[k])[j]
    decreases |ws|
  {
    if |ws| > 0 {
      var init := ws[..|ws| - 1];
      FlatMapAt(init, f, n);
      var r := FlatMap(ws, f);
      assert r == FlatMap(init, f) + f(ws[|ws| - 1]);
      forall k, j | 0 <= k < |ws| && 0 <= j < n ensures r[n * k + j] == f(ws[k])[j] {
        if k < |init| {
          assert n * k + j < n * |init| by {
            assert n * k + n <= n * |init| by { MulMono(n, k + 1, |init|); }
          }
          assert ws[k] == init[k];
        } else {
          assert k == |init|;
        }
      }
    }
  }

  lemma MulMono(n: nat, a: nat, b: nat)
    requires a <= b
    ensures n * a <= n * b
  {
  }

  /** The list has 28 entries: eight integers, sixteen references and
      four other names. */
  lemma BuiltinsShape()
    ensures |Builtins()| == 28
    ensures forall k | 0 <= k < 4 ::
              Builtins()[2 * k] == "int" + NatToString(WIDTHS[k]) + "_t" &&
              Builtins()[2 * k + 1] == "uint" + NatToString(WIDTHS[k]) + "_t"
    ensures forall k, j | 0 <= k < 4 && 0 <= j < 4 :: Builtins()[8 + 4 * k + j] == Refs(WIDTHS[k])[j]
    ensures Builtins()[24..] == OTHERS
  {
    FlatMapAt(WIDTHS, Scalars, 2);
    FlatMapAt(WIDTHS, Refs, 4);
    var a, b := FlatMap(WIDTHS, Scalars), FlatMap(WIDTHS, Refs);
    assert Builtins() == a + b + OTHERS;
    forall k | 0 <= k < 4
      ensures Builtins()[2 * k] == Scalars(WIDTHS[k])[0] && Builtins()[2 * k + 1] == Scalars(WIDTHS[k])[1]
    {
      assert Builtins()[2 * k] == a[2 * k + 0];
      assert Builtins()[2 * k + 1] == a[2 * k + 1];
    }
    forall k, j | 0 <= k < 4 && 0 <= j < 4 ensures Builtins()[8 + 4 * k + j] == Refs(WIDTHS[k])[j] {
      assert Builtins()[8 + 4 * k + j] == b[4 * k + j];
    }
    assert Builtins()[24..] == OTHERS;
  }

  /** Which of the four widths a digit starts. */
  function WidthIndex(c: char): nat {
    if c == '8' then 0 else if c == '1' then 1 else if c == '3' then 2 else 3
  }

  /** The character at `i`, or a space past the end. */
  function At(s: string, i: nat): char {
    if i < |s| then s[i] else ' '
  }

  /** A position for every builtin name, read off a few of its characters;
      used to tell the names apart. */
  function Slot(s: string): nat {
    if At(s, 0) == 'i' then 2 * WidthIndex(At(s, 3))
    else if At(s, 0) == 'u' then 2 * WidthIndex(At(s, 4)) + 1
    else if At(s, 2) == 'd' then 25
    else if At(s, 2) == 'f' then 26
    else if At(s, 2) == 's' then 27
    else if At(s, 8) == 'Z' then 24
    else if At(s, 11) == '<' then
      (if At(s, 12) == 'i' then 8 + 4 * WidthIndex(At(s, 15)) else 9 + 4 * WidthIndex(At(s, 16)))
    else (if At(s, 15) == 'i' then 10 + 4 * WidthIndex(At(s, 18)) else 11 + 4 * WidthIndex(At(s, 19)))
  }

  lemma WidthDigits(k: nat)
    requires k < 4
    ensures |NatToString(WIDTHS[k])| == (if k == 0 then 1 else 2)
    ensures WidthIndex(NatToString(WIDTHS[k])[0]) == k
  {
    assert NatToString(8) == "8";
    assert NatToString(16) == NatToString(1) + [DigitChar(6)];
    assert NatToString(32) == NatToString(3) + [DigitChar(2)];
    assert NatToString(64) == NatToString(6) + [DigitChar(4)];
  }

  lemma ScalarSlots(k: nat)
    requires k < 4
    ensures Slot("int" + NatToString(WIDTHS[k]) + "_t") == 2 * k
    ensures Slot("uint" + NatToString(WIDTHS[k]) + "_t") == 2 * k + 1
  {
    WidthDigits(k);
    var w := NatToString(WIDTHS[k]);
    Around("int", w, "_t");
    Around("uint", w, "_t");
  }

  /** The characters of `p + w + q` up to and including the first of `w`. */
  lemma Around(p: string, w: string, q: string)
    requires |w| > 0
    ensures forall i | 0 <= i < |p| :: At(p + w + q, i) == p[i]
    ensures At(p + w + q, |p|) == w[0]
  {
  }

  lemma RefSlots(k: nat, j: nat)
    requires k < 4 && j < 4
    ensures Slot(Refs(WIDTHS[k])[j]) == 8 + 4 * k + j
  {
    WidthDigits(k);
    var w := NatToString(WIDTHS[k]);
    var p := ["::rust::Ref<int", "::rust::Ref<uint", "::rust::RefMut<int", "::rust::RefMut<uint"][j];
    var q := "_t>";
    assert Refs(WIDTHS[k])[j] == p + w + q;
    Around(p, w, q);
  }

  lemma OtherSlots()
    ensures forall j | 0 <= j < 4 :: Slot(OTHERS[j]) == 24 + j
  {
    assert At(OTHERS[0], 0) == ':' && At(OTHERS[0], 2) == 'r' && At(OTHERS[0], 8) == 'Z';
  }

  /** Every name sits at its own slot. */
  lemma BuiltinSlots(i: nat)
    requires i < 28
    ensures |Builtins()| == 28 && Slot(Builtins()[i]) == i
  {
    BuiltinsShape();
    if i < 8 {
      ScalarSlots(i / 2);
    } else if i < 24 {
      RefSlotAt(i);
    } else {
      OtherSlots();
      assert Builtins()[i] == Builtins()[24..][i - 24];
    }
  }

  lemma RefSlotAt(i: nat)
    requires 8 <= i < 24
    requires |Builtins()| == 28
    requires forall k, j | 0 <= k < 4 && 0 <= j < 4 :: Builtins()[8 + 4 * k + j] == Refs(WIDTHS[k])[j]
    ensures Slot(Builtins()[i]) == i
  {
    var k := if i < 12 then 0 else if i < 16 then 1 else if i < 20 then 2 else 3;
    RefSlots(k, i - 8 - 4 * k);
  }

  /** No name is listed twice. */
  lemma BuiltinsDistinct()
    ensures |Builtins()| == 28
    ensures forall i, j | 0 <= i < j < 28 :: Builtins()[i] != Builtins()[j]
  {
    BuiltinsShape();
    forall i, j | 0 <= i < j < 28 ensures Builtins()[i] != Builtins()[j] {
      BuiltinSlots(i);
      BuiltinSlots(j);
    }
  }
}
