/**
 * Conditional blocks in `.zng` files: the two body cardinalities and the
 * selection of the first passing arm (zngur-parser/src/conditional.rs).
 */
module Conditional {
  import opened Wrappers
  import opened Cfg

  /** A byte range of the `.zng` text. */
  datatype Span = Span(start: nat, end: nat)

  datatype Spanned<T> = Spanned(inner: T, span: Span)

  /** One arm of an `#if` / `#else if` / `#else` chain or of a `#match`: the
      condition guarding it and its block. */
  datatype Arm<T> = Arm(scrutinee: CfgConditional, pattern: Spanned<CfgPattern>, block: seq<Spanned<T>>)

  /** A conditional statement holding any number of items per arm (`NItems`). */
  datatype Condition<T> = Condition(arms: seq<Arm<T>>)

  /** A body holding 0..1 items (`ConditionBodySingle`). */
  datatype BodySingle<T> = BodySingle(pattern: Spanned<CfgPattern>, block: Option<Spanned<T>>)

  /** A body holding 0..N items (`ConditionBodyMany`). */
  datatype BodyMany<T> = BodyMany(pattern: Spanned<CfgPattern>, block: seq<Spanned<T>>)

  // ---- SingleItem ----

  /** What iterating a 0..1 block yields (its `IntoIterator` view). */
  function SingleItems<T>(block: Option<Spanned<T>>): seq<Spanned<T>> {
    if block.Some? then [block.value] else []
  }

  function SingleToBlockSingle<T>(item: Spanned<T>): Option<Spanned<T>> {
    Some(item)
  }

  function EmptyBlockSingle<T>(): Option<Spanned<T>> {
    None
  }

  function NewBodySingle<T>(pattern: Spanned<CfgPattern>, block: Option<Spanned<T>>): BodySingle<T> {
    BodySingle(pattern, block)
  }

  /** `pass_block` for `SingleItem`: the item, if any, processed, with its
      span; what it yields is what the `NItems` pass yields on the same items. */
  function PassBlockSingle<T, U>(block: Option<Spanned<T>>, process: T -> U): (r: Option<Spanned<U>>)
    ensures SingleItems(r) == PassBlockMany(SingleItems(block), process)
  {
    match block
    case None => None
    case Some(item) => Some(Spanned(process(item.inner), item.span))
  }

  function PassBodySingle<T, U>(body: BodySingle<T>, process: T -> U): Option<Spanned<U>> {
    PassBlockSingle(body.block, process)
  }

  // ---- NItems ----

  function SingleToBlockMany<T>(item: Spanned<T>): seq<Spanned<T>> {
    [item]
  }

  function EmptyBlockMany<T>(): seq<Spanned<T>> {
    []
  }

  function NewBodyMany<T>(pattern: Spanned<CfgPattern>, block: seq<Spanned<T>>): BodyMany<T> {
    BodyMany(pattern, block)
  }

  /** `pass_block` for `NItems`: every item processed, in order, keeping its span. */
  function PassBlockMany<T, U>(block: seq<Spanned<T>>, process: T -> U): (r: seq<Spanned<U>>)
    ensures |r| == |block|
    ensures forall i :: 0 <= i < |block| ==> r[i].span == block[i].span && r[i].inner == process(block[i].inner)
  {
    if |block| == 0 then [] else [Spanned(process(block[0].inner), block[0].span)] + PassBlockMany(block[1..], process)
  }

  function PassBodyMany<T, U>(body: BodyMany<T>, process: T -> U): seq<Spanned<U>> {
    PassBlockMany(body.block, process)
  }

  /** The two cardinalities agree: seen through what iterating a block
      yields, every `SingleItem` operation is the `NItems` one; a body keeps
      the pattern that guards it, and passing a body passes its block. */
  lemma CardinalitiesAgree<T, U>(item: Spanned<T>, block: Option<Spanned<T>>, blocks: seq<Spanned<T>>,
                                 process: T -> U, pattern: Spanned<CfgPattern>)
    ensures SingleItems(SingleToBlockSingle(item)) == SingleToBlockMany(item) == [item]
    ensures SingleItems(EmptyBlockSingle<T>()) == EmptyBlockMany<T>() == []
    ensures SingleItems(PassBodySingle(NewBodySingle(pattern, block), process)) == PassBlockMany(SingleItems(block), process)
    ensures PassBodyMany(NewBodyMany(pattern, blocks), process) == PassBlockMany(blocks, process)
    ensures NewBodySingle(pattern, block).pattern == pattern && NewBodyMany(pattern, blocks).pattern == pattern
  {
  }

  /** Whether an arm's guard passes under the provider. */
  predicate ArmPasses<T>(arm: Arm<T>, p: CfgProvider) {
    EvalConditional(arm.scrutinee, arm.pattern.inner, p).matched
  }

  /** The index of the first arm whose guard passes, if any, with the errors
      reported while trying the arms up to it. */
  datatype Selection = Selection(arm: Option<nat>, errors: seq<string>)

  function SelectArm<T>(arms: seq<Arm<T>>, p: CfgProvider): (r: Selection)
    ensures r.arm.Some? ==> r.arm.value < |arms|
    decreases |arms|
  {
    if |arms| == 0 then Selection(None, [])
    else
      var o := EvalConditional(arms[0].scrutinee, arms[0].pattern.inner, p);
      if o.matched then Selection(Some(0), o.errors)
      else
        var rest := SelectArm(arms[1..], p);
        Selection(if rest.arm.Some? then Some(rest.arm.value + 1) else None, o.errors + rest.errors)
  }

  /** The block of the first passing arm, with the errors of every arm tried. */
  datatype EvalOutcome<T> = EvalOutcome(block: Option<seq<Spanned<T>>>, errors: seq<string>)

  /** `ConditionalItem::eval`: the items of the first arm that passes, or
      nothing when no arm passes. */
  function Eval<T>(arms: seq<Arm<T>>, p: CfgProvider): EvalOutcome<T> {
    var s := SelectArm(arms, p);
    EvalOutcome(if s.arm.Some? then Some(arms[s.arm.value].block) else None, s.errors)
  }

  /** The selected arm is the first one whose guard passes. */
  lemma {:induction false} SelectArmFirst<T>(arms: seq<Arm<T>>, p: CfgProvider)
    ensures SelectArm(arms, p).arm.None? <==> forall i :: 0 <= i < |arms| ==> !ArmPasses(arms[i], p)
    ensures SelectArm(arms, p).arm.Some? ==>
              var k := SelectArm(arms, p).arm.value;
              ArmPasses(arms[k], p) && forall j :: 0 <= j < k ==> !ArmPasses(arms[j], p)
    decreases |arms|
  {
    if |arms| > 0 && !ArmPasses(arms[0], p) {
      SelectArmFirst(arms[1..], p);
      assert forall i :: 1 <= i < |arms| ==> arms[i] == arms[1..][i - 1];
    }
  }

  /** `eval` selects the block of the first arm whose guard passes, and gives
      nothing exactly when no arm passes. */
  lemma EvalFirstPassing<T>(arms: seq<Arm<T>>, p: CfgProvider)
    ensures Eval(arms, p).block.None? <==> forall i :: 0 <= i < |arms| ==> !ArmPasses(arms[i], p)
    ensures Eval(arms, p).block.Some? ==>
              exists i :: 0 <= i < |arms| && ArmPasses(arms[i], p) && Eval(arms, p).block.value == arms[i].block &&
                          forall j :: 0 <= j < i ==> !ArmPasses(arms[j], p)
  {
    SelectArmFirst(arms, p);
    if Eval(arms, p).block.Some? {
      var k := SelectArm(arms, p).arm.value;
      assert ArmPasses(arms[k], p) && Eval(arms, p).block.value == arms[k].block;
    }
  }
}
